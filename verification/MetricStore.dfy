/** The latest raw sample and metric of every sensor. */
module MetricStore {
  import opened Common

  datatype MetricStatus = Normal | Warning | Critical | Unknown

  datatype RawSample = RawSample(sensorId: string, name: string, rawValue: real, unit: Option<string>)

  datatype Metric = Metric(sensorId: string, value: real, unit: Option<string>, status: MetricStatus)

  datatype SensorState = SensorState(raw: Option<RawSample>, metric: Option<Metric>)

  type Contents = map<string, SensorState>

  function Get(m: Contents, id: string): Option<SensorState> {
    if id in m then Some(m[id]) else None
  }

  /** The value others see: the metric if there is one, else the raw value. */
  function ValueOf(m: Contents, id: string): Option<real> {
    match Get(m, id)
    case None => None
    case Some(state) =>
      if state.metric.Some? then Some(state.metric.value.value)
      else if state.raw.Some? then Some(state.raw.value.rawValue)
      else None
  }

  function WithRaw(m: Contents, sample: RawSample): Contents {
    m[sample.sensorId := SensorState(Some(sample), if sample.sensorId in m then m[sample.sensorId].metric else None)]
  }

  function WithBatch(m: Contents, batch: seq<RawSample>): Contents {
    if batch == [] then m else WithRaw(WithBatch(m, batch[..|batch| - 1]), batch[|batch| - 1])
  }

  class Store {
    var inner: Contents

    constructor ()
      ensures inner == map[]
    {
      inner := map[];
    }

    /** Records a raw sample and keeps the metric. */
    method UpdateRaw(sample: RawSample)
      modifies this
      ensures inner == WithRaw(old(inner), sample)
      ensures sample.sensorId in inner && inner[sample.sensorId].raw == Some(sample)
      ensures inner[sample.sensorId].metric ==
              if sample.sensorId in old(inner) then old(inner)[sample.sensorId].metric else None
      ensures forall id :: id != sample.sensorId ==> Get(inner, id) == Get(old(inner), id)
    {
      if sample.sensorId !in inner {
        inner := inner[sample.sensorId := SensorState(Some(sample), None)];
      }
      inner := inner[sample.sensorId := inner[sample.sensorId].(raw := Some(sample))];
    }

    method UpdateBatchRaw(batch: seq<RawSample>)
      modifies this
      ensures inner == WithBatch(old(inner), batch)
    {
      for i := 0 to |batch|
        invariant inner == WithBatch(old(inner), batch[..i])
      {
        assert batch[..i + 1][..i] == batch[..i];
        UpdateRaw(batch[i]);
      }
      assert batch[..|batch|] == batch;
    }

    /** Records a metric together with the sample it came from, if any. */
    method UpdateMetric(raw: Option<RawSample>, metric: Metric)
      modifies this
      ensures inner == old(inner)[metric.sensorId := SensorState(raw, Some(metric))]
    {
      inner := inner[metric.sensorId := SensorState(raw, Some(metric))];
    }
  }
}
