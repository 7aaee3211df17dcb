/** The whole way of a value: polled from a device, through the run of the gateway, to a client that
    reads the register table. */
module PollToClient {
  import opened Common
  import opened GatewayConfig
  import opened GatewayValidate
  import opened DependencyGraph
  import MetricStore
  import opened Codec
  import opened ModbusTable
  import opened WriteRouting
  import opened ReadBack
  import opened Pipeline
  import opened PipelinesCache
  import opened Consumer
  import opened GatewayRun

  /** The words that a client reads for register `i` of a configuration from a served area. */
  function ClientWords(f: Float32, view: View, config: Config, g: RegisterFunction, i: nat): seq<u16>
    requires i < |Entries(config.devices)| && Entries(config.devices)[i].register.function_ == g && !IsBit(g)
  {
    var entries := Entries(config.devices);
    var start, n := BlockStart(entries, g, i), RegisterCount(entries[i].register.valueType);
    SpanIsBlock(entries, g, i);
    WordsOf(f, Served(view.store), ServedWords(entries, config.computed, g)[start..start + n])
  }

  lemma {:induction false} ClientWordsAreSpan(f: Float32, view: View, config: Config, g: RegisterFunction, i: nat)
    requires i < |Entries(config.devices)| && Entries(config.devices)[i].register.function_ == g && !IsBit(g)
    ensures ClientWords(f, view, config, g, i) == SpanWords(f, view.store, Entries(config.devices), g, i)
  {
    var entries := Entries(config.devices);
    var start, n := BlockStart(entries, g, i), RegisterCount(entries[i].register.valueType);
    SpanIsBlock(entries, g, i);
    assert ServedWords(entries, config.computed, g)[start..start + n] == WordArea(entries, g)[start..start + n];
  }

  /** No register of a valid configuration has the id of a computed sensor. */
  lemma {:induction false} RegisterIsNotComputed(lib: Meval, config: Config, i: nat)
    requires Valid(lib, config) && i < |Entries(config.devices)|
    ensures Entries(config.devices)[i].register.sensorId !in ComputedIds(config.computed)
  {
    IdsAreRegisterIds(config.devices);
    DistinctDisjoint(RegisterIds(config.devices), ComputedIds(config.computed));
    assert IdsOf(Entries(config.devices))[i] == Entries(config.devices)[i].register.sensorId;
  }

  /** After a run without changes, a client reads for a register without a pipeline exactly the words
      that were polled for it last. */
  lemma {:induction false} ClientReadsPolledWords(
    f: Float32, lib: Meval, config: Config, chains: Chains, view: View, batches: seq<seq<MetricStore.RawSample>>,
    g: RegisterFunction, i: nat, words: seq<u16>)
    requires Valid(lib, config) && ChainsValid(lib, chains) && RightStore(lib, config, chains, view, batches)
    requires i < |Entries(config.devices)| && Entries(config.devices)[i].register.function_ == g && !IsBit(g)
    requires Entries(config.devices)[i].register.sensorId !in chains
    requires |words| == RegisterCount(Entries(config.devices)[i].register.valueType)
    requires Entries(config.devices)[i].register.valueType == F32 ==> ExactWidening(f)
    ensures var r := Entries(config.devices)[i].register;
            var mine := SamplesOf(Flatten(batches), r.sensorId);
            mine != []
            && DecodeWords(f, words, r.valueType, r.wordOrder) == Finite(mine[|mine| - 1].rawValue)
            && Faithful(words, r.valueType, r.wordOrder) ==>
              ClientWords(f, view, config, g, i) == words
  {
    var r := Entries(config.devices)[i].register;
    var mine := SamplesOf(Flatten(batches), r.sensorId);
    RegisterIsNotComputed(lib, config, i);
    assert AgreesAt(lib, chains, view, r.sensorId, mine);
    if mine != [] && DecodeWords(f, words, r.valueType, r.wordOrder) == Finite(mine[|mine| - 1].rawValue) {
      ClientWordsAreSpan(f, view, config, g, i);
      PolledWordsAreServed(f, view.store, Entries(config.devices), g, i, words);
    }
  }

  /** And for a register with a pipeline that produces metrics, words that decode to the metric for
      its latest sample, rounded and limited. */
  lemma {:induction false} ClientReadsMetric(
    f: Float32, lib: Meval, config: Config, chains: Chains, view: View, batches: seq<seq<MetricStore.RawSample>>,
    g: RegisterFunction, i: nat)
    requires Valid(lib, config) && ChainsValid(lib, chains) && RightStore(lib, config, chains, view, batches)
    requires i < |Entries(config.devices)| && Entries(config.devices)[i].register.function_ == g && !IsBit(g)
    ensures var r := Entries(config.devices)[i].register;
            var mine := SamplesOf(Flatten(batches), r.sensorId);
            mine != [] && r.sensorId in chains && chains[r.sensorId] != [] && AcceptsAll(lib, chains[r.sensorId]) ==>
              var outcome := Outcome(lib, chains[r.sensorId], Readings(mine));
              && outcome.Some?
              && |ClientWords(f, view, config, g, i)| == RegisterCount(r.valueType)
              && DecodeWords(f, ClientWords(f, view, config, g, i), r.valueType, r.wordOrder)
                 == Held(f, Finite(outcome.value.value), r.valueType)
  {
    var r := Entries(config.devices)[i].register;
    var mine := SamplesOf(Flatten(batches), r.sensorId);
    RegisterIsNotComputed(lib, config, i);
    assert AgreesAt(lib, chains, view, r.sensorId, mine);
    if mine != [] && r.sensorId in chains && chains[r.sensorId] != [] && AcceptsAll(lib, chains[r.sensorId]) {
      MetricIsOfLatest(lib, chains, r.sensorId, mine);
      ClientWordsAreSpan(f, view, config, g, i);
      MetricIsServed(f, view.store, Entries(config.devices), g, i);
    }
  }
}
