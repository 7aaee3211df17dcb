/** The gateway's configuration. */
module GatewayConfig {
  import opened Common

  datatype RegisterFunction = Holding | Input | Coil | DiscreteInput

  datatype Access = Read | ReadWrite

  datatype ValueType = U16 | I16 | U32 | I32 | F32 | Bool

  datatype WordOrder = Big | Little

  datatype Transport = Tcp | Rtu

  predicate IsWritable(f: RegisterFunction) {
    f.Holding? || f.Coil?
  }

  predicate IsBit(f: RegisterFunction) {
    f.Coil? || f.DiscreteInput?
  }

  /** How many 16-bit registers a value takes. */
  function RegisterCount(t: ValueType): u16 {
    match t
    case U16 | I16 | Bool => 1
    case U32 | I32 | F32 => 2
  }

  datatype RegisterConfig = RegisterConfig(
    name: string,
    sensorId: string,
    function_: RegisterFunction,
    address: u16,
    count: Option<u16>,
    valueType: ValueType,
    wordOrder: WordOrder,
    access: Access)
  {
    function EffectiveCount(): u16 {
      match count
      case Some(n) => n
      case None => RegisterCount(valueType)
    }
  }

  datatype DeviceConfig = DeviceConfig(
    name: string,
    transport: Transport,
    unitId: nat,
    host: string,
    port: u16,
    pollIntervalMs: nat,
    timeoutMs: nat,
    reconnectInitialMs: nat,
    reconnectMaxMs: nat,
    serialPort: Option<string>,
    baudRate: Option<nat>,
    registers: seq<RegisterConfig>)

  /** A virtual sensor: an expression over the values of other sensors. */
  datatype ComputedConfig = ComputedConfig(
    sensorId: string,
    name: string,
    unit: Option<string>,
    inputs: map<string, string>,
    expression: string)

  datatype AggregateMode = Min | Max | Avg

  datatype StageConfig =
    | Scale(scale: real, offset: real, unit: Option<string>)
    | SlidingAverage(window: nat)
    | Median(window: nat)
    | Math(expression: string)
    | Threshold(lowWarning: Option<real>, highWarning: Option<real>,
                lowCritical: Option<real>, highCritical: Option<real>)
    | Aggregate(window: nat, mode: AggregateMode)

  datatype PipelineConfig = PipelineConfig(sensorId: string, stages: seq<StageConfig>)

  datatype Config = Config(
    devices: seq<DeviceConfig>,
    pipelines: seq<PipelineConfig>,
    computed: seq<ComputedConfig>)
}
