/** From the words polled from a device, through the store, back to the words served. */
module ReadBack {
  import opened Common
  import opened GatewayConfig
  import opened MetricStore
  import opened Codec
  import opened ModbusTable

  /** The values that the register table serves: the metric of a sensor, else its raw value. */
  function Served(m: Contents): Values {
    id => match ValueOf(m, id) case Some(v) => Some(Finite(v)) case None => None
  }

  /** The words of the span of register `i`, as the table serves them from a store. */
  function SpanWords(f: Float32, m: Contents, entries: seq<Entry>, g: RegisterFunction, i: nat): seq<u16>
    requires i < |entries| && entries[i].register.function_ == g
  {
    var start, n := BlockStart(entries, g, i), RegisterCount(entries[i].register.valueType);
    BlockIsContiguous(entries, g, i, n - 1);
    WordsOf(f, Served(m), WordArea(entries, g)[start..start + n])
  }

  lemma {:induction false} SpanIsEncoded(f: Float32, m: Contents, entries: seq<Entry>, g: RegisterFunction, i: nat)
    requires i < |entries| && entries[i].register.function_ == g
    ensures var r := entries[i].register;
            SpanWords(f, m, entries, g, i) ==
            EncodeValue(f, ValueOr(Served(m), r.sensorId, PLACEHOLDER), r.valueType, r.wordOrder)
  {
    var r, start := entries[i].register, BlockStart(entries, g, i);
    SpanIsBlock(entries, g, i);
    BlockReadsEncoded(f, Served(m), r.sensorId, entries[i].device, r.valueType, r.wordOrder, r.access);
  }

  /** The value polled for a register is the one stored, and no metric hides it. */
  predicate StoresPolled(f: Float32, m: Contents, r: RegisterConfig, words: seq<u16>)
    requires |words| == RegisterCount(r.valueType)
  {
    && r.sensorId in m && m[r.sensorId].metric.None? && m[r.sensorId].raw.Some?
    && DecodeWords(f, words, r.valueType, r.wordOrder) == Finite(m[r.sensorId].raw.value.rawValue)
  }

  /** A register without a metric serves, over its whole span, exactly the words that were polled:
      always for integers, for every finite binary32 value other than negative zero, and for a
      boolean word when it is 0 or 1. */
  lemma {:induction false} PolledWordsAreServed(
    f: Float32, m: Contents, entries: seq<Entry>, g: RegisterFunction, i: nat, words: seq<u16>)
    requires i < |entries| && entries[i].register.function_ == g
    requires |words| == RegisterCount(entries[i].register.valueType)
    requires StoresPolled(f, m, entries[i].register, words)
    requires entries[i].register.valueType == F32 ==> ExactWidening(f)
    ensures Faithful(words, entries[i].register.valueType, entries[i].register.wordOrder) ==>
              SpanWords(f, m, entries, g, i) == words
  {
    var r := entries[i].register;
    SpanIsEncoded(f, m, entries, g, i);
    EncodeDecode(f, words, r.valueType, r.wordOrder);
  }

  /** With a metric, the span decodes to the metric's value, rounded and limited. */
  lemma {:induction false} MetricIsServed(
    f: Float32, m: Contents, entries: seq<Entry>, g: RegisterFunction, i: nat)
    requires i < |entries| && entries[i].register.function_ == g
    requires entries[i].register.sensorId in m && m[entries[i].register.sensorId].metric.Some?
    ensures var r := entries[i].register;
            && |SpanWords(f, m, entries, g, i)| == RegisterCount(r.valueType)
            && DecodeWords(f, SpanWords(f, m, entries, g, i), r.valueType, r.wordOrder)
               == Held(f, Finite(m[r.sensorId].metric.value.value), r.valueType)
  {
    var r := entries[i].register;
    SpanIsEncoded(f, m, entries, g, i);
    DecodeEncode(f, Finite(m[r.sensorId].metric.value.value), r.valueType, r.wordOrder);
  }
}
