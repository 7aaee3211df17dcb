/** Pipeline stages: each transforms a sample in place, some over a window of recent values. */
module Stages {
  import opened Common
  import opened GatewayConfig
  import opened GatewayValidate
  import opened MetricStore
  import opened WindowStatistics

  /** What a stage sees and changes of a sample. */
  datatype Reading = Reading(value: real, unit: Option<string>, status: MetricStatus)

  class SampleContext {
    const sensorId: string
    var value: real
    var unit: Option<string>
    var status: MetricStatus

    ghost function Current(): Reading
      reads this
    {
      Reading(value, unit, status)
    }

    constructor (sample: RawSample)
      ensures sensorId == sample.sensorId && Current() == FromRaw(sample)
    {
      sensorId, value, unit, status := sample.sensorId, sample.rawValue, sample.unit, Normal;
    }
  }

  function FromRaw(sample: RawSample): Reading {
    Reading(sample.rawValue, sample.unit, Normal)
  }

  predicate IsWindowed(config: StageConfig) {
    config.SlidingAverage? || config.Median? || config.Aggregate?
  }

  function Window(config: StageConfig): nat {
    if IsWindowed(config) then config.window else 0
  }

  predicate Under(v: real, bound: Option<real>) {
    bound.Some? && v < bound.value
  }

  predicate Over(v: real, bound: Option<real>) {
    bound.Some? && v > bound.value
  }

  /** Outside a critical bound is critical, else outside a warning bound is a warning. */
  function StatusOf(config: StageConfig, v: real): MetricStatus
    requires config.Threshold?
  {
    if Under(v, config.lowCritical) || Over(v, config.highCritical) then Critical
    else if Under(v, config.lowWarning) || Over(v, config.highWarning) then Warning
    else Normal
  }

  /** The output of a stage: a function of the reading and of all values the stage has received,
      the reading's value last.  Only an expression that does not bind fails. */
  function Output(lib: Meval, config: StageConfig, received: seq<real>, r: Reading): Option<Reading>
    requires StageOk(lib, config) && received != []
  {
    match config
    case Scale(scale, offset, unit) =>
      Some(Reading(r.value * scale + offset, if unit.Some? then unit else r.unit, r.status))
    case SlidingAverage(w) => Some(r.(value := Mean(Last(received, w))))
    case Median(w) => Some(r.(value := MedianOf(Last(received, w))))
    case Aggregate(w, mode) =>
      var recent := Last(received, w);
      Some(r.(value := match mode case Min => MinOf(recent) case Max => MaxOf(recent) case Avg => Mean(recent)))
    case Math(expression) =>
      if lib.binds(expression, {"v"}) then Some(r.(value := lib.value(expression, map["v" := r.value]))) else None
    case Threshold(_, _, _, _) => Some(r.(status := StatusOf(config, r.value)))
  }

  class Stage {
    const lib: Meval
    const config: StageConfig
    var buffer: seq<real>
    /** Every value this stage was given. */
    ghost var received: seq<real>

    /** The buffer of a windowed stage is the window of what it received. */
    ghost predicate Valid()
      reads this
    {
      && StageOk(lib, config)
      && buffer == if IsWindowed(config) then Last(received, Window(config)) else []
    }

    constructor (lib: Meval, config: StageConfig)
      requires StageOk(lib, config)
      ensures this.lib == lib && this.config == config && Valid() && received == []
    {
      this.lib, this.config, buffer, received := lib, config, [], [];
    }

    /** Appends a value and drops the oldest one if the buffer exceeds the window. */
    method Push(value: real)
      requires Valid()
      modifies this
      ensures Valid() && received == old(received) + [value]
    {
      if IsWindowed(config) {
        LastAppend(received, value, Window(config));
        buffer := buffer + [value];
        if |buffer| > Window(config) {
          buffer := buffer[1..];
        }
      }
      received := received + [value];
    }

    method Process(ctx: SampleContext) returns (ok: bool)
      requires Valid()
      modifies this, ctx
      ensures Valid() && received == old(received) + [old(ctx.value)]
      ensures var out := Output(lib, config, received, old(ctx.Current()));
              ok == out.Some? && ctx.Current() == if ok then out.value else old(ctx.Current())
    {
      Push(ctx.value);
      ok := true;
      match config
      case Scale(scale, offset, unit) =>
        ctx.value := ctx.value * scale + offset;
        if unit.Some? {
          ctx.unit := unit;
        }
      case SlidingAverage(_) =>
        ctx.value := MeanOf(buffer);
      case Median(_) =>
        SortSorts(buffer);
        var sorted := Sort(buffer);
        var mid := |sorted| / 2;
        ctx.value := if |sorted| % 2 == 0 then (sorted[mid - 1] + sorted[mid]) / 2.0 else sorted[mid];
      case Aggregate(_, mode) =>
        match mode {
          case Min => ctx.value := MinOf(buffer);
          case Max => ctx.value := MaxOf(buffer);
          case Avg => ctx.value := MeanOf(buffer);
        }
      case Math(expression) =>
        if !lib.binds(expression, {"v"}) {
          return false;
        }
        ctx.value := lib.value(expression, map["v" := ctx.value]);
      case Threshold(lowWarning, highWarning, lowCritical, highCritical) =>
        var v := ctx.value;
        var status := Normal;
        if lowCritical.Some? && v < lowCritical.value {
          status := Critical;
        }
        if highCritical.Some? && v > highCritical.value {
          status := Critical;
        }
        if status != Critical {
          if lowWarning.Some? && v < lowWarning.value {
            status := Warning;
          }
          if highWarning.Some? && v > highWarning.value {
            status := Warning;
          }
        }
        ctx.status := status;
    }
  }

  /** Adds up the buffer and divides by its length. */
  method MeanOf(buffer: seq<real>) returns (mean: real)
    requires buffer != []
    ensures mean == Mean(buffer)
  {
    var sum := 0.0;
    for i := 0 to |buffer|
      invariant sum == Sum(buffer[..i])
    {
      assert buffer[..i + 1][..i] == buffer[..i];
      sum := sum + buffer[i];
    }
    assert buffer[..|buffer|] == buffer;
    mean := sum / |buffer| as real;
  }
}
