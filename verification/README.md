# Verification of the telemux data path

This project models the telemux gateway and its companion, the CDU simulator, in Dafny and proves
properties of them.  `dafny verify dfyconfig.toml` checks everything.

The gateway polls Modbus devices, runs each sensor's samples through a pipeline of stages, computes
virtual sensors from other sensors, and serves all values from a Modbus register table of its own;
writes to that table travel back to the devices.  Its configuration can change while it runs.  The
simulator evaluates formulas over settable controls and serves the results as Modbus registers.

## What is proved

**Evaluation of dependent sensors.**  A simulator configuration means the least solution of one
equation per sensor (`SimModel`).  The recursive evaluation with its table and its stack of sensors
under evaluation, which failing calls leave behind and which all sensors of a pass share, computes
exactly that solution (`SimEngine`).  A sensor has a value exactly when no dependency cycle and no
failing sensor is reachable from it.  `FormulaMeaning` says what the value is without the functions
that compute it: the formula under a binding of each name to what the configuration says it is.  On
the gateway the three-colour search accepts exactly the acyclic configurations (`CycleCheck`), the
post-order search yields a dependency order exactly then (`EvaluationOrder`), and one pass in that
order brings the store into a settled state that is unique, so neither the listing order, nor the
iteration order of maps, nor a second pass matters (`ComputedRun`, `ComputedEngine`).  What a
computed sensor holds there is stated on the entries of the store alone (`ComputedMeaning`).

**Run-time reconfiguration.**  `HotReload` is a transition system of updaters and caches in small
steps.  Over all interleavings the stored configuration is valid, the revision counts the commits,
and a resting cache with the current revision was built from the current configuration.  Over all
interleavings of updates that each add something new, a commit keeps what was stored exactly when
nobody has committed since its copy was taken, and in the end nothing is lost exactly when that held
for every commit (`LostUpdates`).  The full configuration check is proved to accept exactly the
valid configurations, and adding one register at run time agrees with it (`GatewayValidate`,
`AddRegister`); `RacingRegisters` applies the theorems about lost updates to the registers that the
dashboard adds.

**Registers, words and writes.**  The gateway's table is made of contiguous blocks, one per sensor;
words and values round-trip (`Codec`), the numbers they stand for are stated in plain arithmetic
(`CodecLaws`), and the words polled from a device are the words served (`ReadBack`); a write carries
its word unchanged to the one register its address stands for (`ModbusTable`, `WriteRouting`).
Which addresses an added register moves is known exactly (`AddressStability`).  For a checked
configuration the simulator's sparse map keeps every item at its own addresses except for two items
at the top address and for automatic items in mixed areas; both conditions are exact (`Placement`,
`SimRegisters`, `SimMapProperties`).  What is read at a configured address is stated in
`SimReadLaws`.  A write to the simulator changes only sensors that depend on the controls written
(`ControlLocality`, `SimServer`), and a value survives the way from the simulator's registers to the
gateway's decoder (`CrossRoundTrip`).

**The device loop.**  `DeviceTask` is a transition system of one device loop and its clients: the
queue is bounded, requests are answered one by one in the order sent, what a client is told is what
happened, and nobody waits forever once the loop has ended.  The backoff delay doubles with each of
the first ten failures up to its maximum.

**Pipelines and the consumer loop.**  Each windowed stage refines a function of everything it has
received, also when a later stage failed (`WindowStatistics`, `Stages`, `Pipeline`), and laws for
each kind of stage say which function that is (`StageLaws`).  After any sequence of batches every
sensor holds its latest sample and the metric of the latest sample its pipeline accepted, and all
computed sensors are settled over the final store, with nothing where an input has no value
(`PipelinesCache`, `Consumer`).  `GatewayRun` states this from a valid configuration to the final
store, and what remains when updates change the configuration between batches; `PollToClient`
follows a value from the device to the client that reads the table.

## How the model is built

Code that changes objects in place is modelled by classes with the same fields and methods; each
method is proved against a function or predicate, about which the lemmas then speak.  Concurrent
parts are transition systems whose runs are sequences of enabled steps.

- The expression library is a value of type `Common.Meval`: the names in a formula, whether it
  parses, which sets of names bind it, its value and whether that is finite.  Nothing is assumed
  about it.
- Loops over hash maps and sets take the elements in an arbitrary order, so results hold for all.
- `SimEngine` methods take two ghost parameters, a solution of the equations and a ranking of it;
  `EvalAll` supplies them.  The two mutable parameters of the source are one `EvalPass` object.
- The stage types behind the `Stage` trait are one class with a match on its configuration.
- Values are exact reals in the simulator, the pipelines and the store.  `Codec` distinguishes the
  special doubles.  Binary32 conversion is a parameter; where needed it is assumed that widening is
  exact for patterns that are not NaN (IEEE 754, section 5.4.2).
- Time is a parameter, fixed during a pass.

## Where code and documentation differ

The model follows the code.

- `crates/telemux/src/protocol/modbus_server.rs:6-7` says that append-only changes keep addresses
  stable.  Adding an input register moves every computed sensor, and adding a register to any device
  but the last may move those of later devices (`GatewayExamples.AddedRegisterMovesHolding`):
  `AddressStability.AddedRegisterKeepsAddressesIff` gives the exact condition for each area.
- A gateway multi-register write is answered with the full count but forwards its first word only,
  so it does what was asked exactly for one word: `WriteRouting.LaterWordsNotWritten` and
  `WriteRouting.MultiWriteIsCompleteIff`, with an input in `GatewayExamples.MultiWriteLosesWord`.
- The configuration check accepts pipeline expressions with other variables than `v`; such a chain
  never produces a metric: `Pipeline.ChainAcceptsIff` and `Pipeline.CheckedChainMayNeverProduce`.
- A register without data reads as all ones only for unsigned 16-bit values:
  `ModbusTable.MissingSpanIsAllOnesIff`.
- The simulator picks the half of a binary32 value by the parity of the absolute address, so a
  sensor at an odd address reads with its halves swapped: `SimServer.WordPairIsBitsIff`, with a checked
  map in `SimMapProperties.OddAddressSwapsHalves`.
- Explicit and automatic addresses in one area, and explicit addresses touching 65535, pass the
  simulator's check and may still overwrite each other: `SimMapProperties.MixedMapOverwrites`,
  `SimMapProperties.TopAddressOverwrites`; the exact conditions are `SimMapProperties.AreaIntactIff`
  and `SimMapProperties.HoldingIntactIff`.
- `crates/telemux/src/store.rs:29` describes the store's revision as incremented by every write; the
  code sends the number of entries.  It is not part of this model.

## Model

| member | source | states |
|---|---|---|
| SimModel.MeaningSolves | crates/telemux-sim/src/model.rs:321-390 | a sensor has a value exactly when its formula has a finite one over the other sensors' values, and then it is that one |
| SimModel.MeaningIsLeast | crates/telemux-sim/src/model.rs:319-320 | no solution of the equations has fewer values, so sensors on a cycle have none |
| FormulaMeaning.SensorMeansFormula | crates/telemux-sim/src/model.rs:321-410 | a sensor has a value v if and only if its formula gives v under a binding of exactly the names that matter, each to an entry of `inputs`, the current setting of a control or else its initial value, the time, or the value of the first sensor with that last segment, in this priority |
| FormulaMeaning.BindingsIff | crates/telemux-sim/src/model.rs:338-380 | the values a formula is evaluated with are that binding, and there is one exactly if every name that matters has a value |
| FormulaMeaning.OnlySensorsMean | crates/telemux-sim/src/model.rs:334-335 | an id without a sensor whose formula parses has no value |
| FormulaMeaning.WrittenControlReachesSensor | crates/telemux-sim/src/model.rs:353-360 | after an accepted write of a word to a control, a sensor whose formula refers only to that control has the formula's value at the word limited to 100 |
| Fixpoint.LfpIsFixpoint | crates/telemux-sim/src/model.rs:321-390 | as many rounds as there are sensors reach a fixpoint of any monotone operator |
| SimModel.ShortName | crates/telemux-sim/src/model.rs:435-437 | the suffix of an id after its last dot |
| SimModel.ResolveShort | crates/telemux-sim/src/model.rs:413-418 | a resolved short name belongs to a configured sensor with that last segment |
| SimModel.ResolveShortIsFirst | crates/telemux-sim/src/model.rs:413-418 | the first sensor with a short name is the one taken |
| SimModel.ResolveShortNone | crates/telemux-sim/src/model.rs:413-418 | a name resolves to nothing only if no sensor has it |
| SimEngine.DependencyRanksLower | crates/telemux-sim/src/model.rs:337-379 | a sensor with a value gets it in a later round than each sensor it refers to |
| SimEngine.MeaningIsRanked | crates/telemux-sim/src/model.rs:337-379 | the least solution has a ranking in which dependencies come strictly first |
| SimEngine.ChainRanks | crates/telemux-sim/src/model.rs:330-333 | along a chain of references from a sensor with a value, ranks fall by at least one per step, so it cannot return to itself |
| SimEngine.ValueIffNothingFails | crates/telemux-sim/src/model.rs:319-390 | a sensor has a value if and only if no chain of references leads from it to a failing sensor or onto a cycle |
| SimEngine.SimEngine.constructor | crates/telemux-sim/src/model.rs:272-292 | every control starts at the initial value of its last entry, and formulas that parse are compiled |
| SimEngine.SimEngine.SetControl | crates/telemux-sim/src/model.rs:305-317 | succeeds exactly for configured writable controls, and changes that control only |
| SimEngine.SimEngine.Eval | crates/telemux-sim/src/model.rs:321-390 | returns the sensor's value in the solution; the table stays right; the stack is restored on success and after a failure has grown by sensors without a value only; terminates by sensors not yet on the stack |
| SimEngine.SimEngine.EvalRefs | crates/telemux-sim/src/model.rs:338-380 | the loop over the names of a formula yields the binding determined by the solution, stopping at the first name without a value |
| SimEngine.SimEngine.ValueOf | crates/telemux-sim/src/model.rs:393-410 | the value a reference has in the solution |
| SimEngine.SimEngine.EvalEach | crates/telemux-sim/src/model.rs:421-431 | with one shared table and stack the pass reads out exactly the sensors with a value, in sensor order |
| SimEngine.SimEngine.EvalAll | crates/telemux-sim/src/model.rs:421-431 | the pass equals the readout of the least solution |
| SimRegisters.ReadoutEntries | crates/telemux-sim/src/registers.rs:171-172 | collecting the pass into a table keeps exactly the values of the sensors that have one |
| SimRegisters.ReadoutInOrder | crates/telemux-sim/src/model.rs:421-431 | the readout follows the order of the sensors |
| ControlLocality.ControlWritesAreLocal | crates/telemux-sim/src/model.rs:305-390 | changing controls changes neither the value nor its presence for any sensor whose dependency closure does not mention them |
| Placement.SpanIsExact | crates/telemux-sim/src/model.rs:205 | the saturating span is the occupied range if and only if the item ends below 65535 |
| Placement.LayoutHoldsLast | crates/telemux-sim/src/registers.rs:110-124 | every address holds the last item placed over it, and nothing otherwise |
| Placement.IntactIffDisjoint | crates/telemux-sim/src/registers.rs:59-142 | no slot is overwritten if and only if no address is used by two items |
| Placement.ExplicitApartIff | crates/telemux-sim/src/model.rs:255-258 | with non-overlapping declared ranges two explicitly placed items share an address if and only if both reach 65535 |
| Placement.CoveredIsDisjointIff | crates/telemux-sim/src/model.rs:195-220 | what non-overlapping declared ranges leave open: no address is used twice if and only if at most one item reaches 65535 and no automatic item shares an address |
| Placement.CoveredIsIntactIff | crates/telemux-sim/src/model.rs:195-220 | hence when nothing is overwritten; with explicit addresses exactly when at most one item reaches 65535 |
| Placement.AutomaticIsDisjoint | crates/telemux-sim/src/registers.rs:102-125 | automatically placed items use no address twice |
| SimRegisters.Validate | crates/telemux-sim/src/model.rs:170-252 | accepts exactly the configurations with unique names and ids, no overlapping spans in any area, and well-formed sensors |
| SimRegisters.ValidateControls | crates/telemux-sim/src/model.rs:171-187 | accepts exactly unique control names with non-overlapping addresses |
| SimRegisters.ValidateIds | crates/telemux-sim/src/model.rs:188-194 | accepts exactly unique sensor ids |
| SimRegisters.ValidateSpans | crates/telemux-sim/src/model.rs:197-220 | accepts exactly when no area has overlapping spans, controls included |
| SimRegisters.RegisterMap.Build | crates/telemux-sim/src/registers.rs:59-142 | each area is the layout of its items in configuration order |
| SimRegisters.RegisterMap.BuildControls | crates/telemux-sim/src/registers.rs:62-73 | controls are laid out first, with the cursor after the last |
| SimRegisters.RegisterMap.BuildHolding | crates/telemux-sim/src/registers.rs:61-101 | the holding sensors continue at that cursor, so the area is the layout of controls and sensors |
| SimRegisters.RegisterMap.BuildArea | crates/telemux-sim/src/registers.rs:102-140 | the input and coil areas are laid out from zero |
| SimRegisters.RegisterMap.ReadHolding | crates/telemux-sim/src/registers.rs:145-155 | a word of the holding area, as a function of the controls and the least solution |
| SimRegisters.RegisterMap.ReadInput | crates/telemux-sim/src/registers.rs:158-163 | a word of the input area, as a function of the least solution |
| SimRegisters.RegisterMap.ReadCoil | crates/telemux-sim/src/registers.rs:166-174 | a coil is on exactly when its sensor has a value of magnitude above one half |
| SimReadLaws.SensorWordReads | crates/telemux-sim/src/registers.rs:178-209 | a sensor's word is its bits divided by 65536 at even and their remainder at odd addresses, or its encoded value, or without an encoder the integer from 0 to 65535 nearest to its value, zero without one |
| SimReadLaws.InputIsServed | crates/telemux-sim/src/registers.rs:158-163 | in an area that overwrites nothing, an input sensor configured at an address is read in this way at that address and the next one |
| SimReadLaws.CoilIsServed | crates/telemux-sim/src/registers.rs:126-140 | a coil configured at an address is found there under the same condition |
| SimReadLaws.ControlIsServed | crates/telemux-sim/src/registers.rs:145-155 | a control configured at an address reads as its current setting, to the nearest integer from 0 to 65535 |
| SimReadLaws.HoldingIsServed | crates/telemux-sim/src/registers.rs:145-155 | a holding sensor configured at an address is read like an input sensor |
| SimRegisters.CurrentValues | crates/telemux-sim/src/registers.rs:171 | evaluating all sensors and collecting them gives the least solution |
| SimMapProperties.UniformAreaIsIntact | crates/telemux-sim/src/registers.rs:102-140 | for a checked configuration, an input or coil area that is all automatic, or all explicit with at most one item at the top address, keeps each item at exactly its own addresses |
| SimMapProperties.UniformHoldingIsIntact | crates/telemux-sim/src/registers.rs:61-101 | the same for the holding area |
| SimMapProperties.AreaIntactIff | crates/telemux-sim/src/registers.rs:102-140 | a checked configuration's input or coil area is built without overwriting if and only if at most one item reaches 65535 and no automatic item shares an address; if all are explicit, if and only if at most one reaches 65535 |
| SimMapProperties.HoldingIntactIff | crates/telemux-sim/src/registers.rs:61-101 | the same for the holding area, shared by controls and sensors |
| SimMapProperties.MixedMapOverwrites | crates/telemux-sim/src/registers.rs:110-120 | a checked configuration mixing both kinds of address in which a slot is overwritten |
| SimMapProperties.TopAddressOverwrites | crates/telemux-sim/src/model.rs:205 | a checked configuration with two sensors at address 65535, one overwritten |
| SimServer.SimSlave.WriteControl | crates/telemux-sim/src/server.rs:95-124 | which addresses are refused and how; an accepted word sets its control to at most 100 and nothing else |
| SimServer.RefusalByItem | crates/telemux-sim/src/server.rs:100-123 | over a checked configuration a write is accepted exactly at addresses of writable controls; empty addresses and read-only items are refused with different exceptions, and the third exception never occurs |
| SimServer.SimSlave.WriteMultiple | crates/telemux-sim/src/server.rs:73-78 | applies exactly the words before the first refused address |
| SimServer.WrittenControlHolds | crates/telemux-sim/src/server.rs:113-119 | a written control holds the last word written to it, limited to 100 |
| SimServer.OtherControlsUnchanged | crates/telemux-sim/src/server.rs:73-78 | all other controls keep their values |
| SimServer.ControlHasOneAddress | crates/telemux-sim/src/registers.rs:63-73 | a control occurs at one holding address only |
| SimServer.AcceptedWriteReadsBack | crates/telemux-sim/src/server.rs:73-78 | after an accepted multi-register write every written address reads back its word, limited to 100 |
| SimServer.WriteChangesOnlyDependents | crates/telemux-sim/src/server.rs:73-78 | such a write, complete or cut short, changes only sensors that depend on a written control |
| SimServer.WordPairIsBitsIff | crates/telemux-sim/src/registers.rs:178-189 | the two words of a binary32 sensor, high word first, are its bits if and only if it starts at an even address or its halves are equal |
| SimMapProperties.OddAddressSwapsHalves | crates/telemux-sim/src/registers.rs:110-124 | a checked configuration in which an automatically placed binary32 sensor starts at address 1, so its words are its bits only if their halves are equal |
| SimServer.InputAreaRoundTrip | crates/telemux-sim/src/registers.rs:102-125 | in an automatic all-binary32 input area sensor i starts at 2i and its words are its bits |
| CrossRoundTrip.SimulatorToGateway | crates/telemux/src/acquisition/decoder.rs:23-28 | 65536 times the first of those words plus the second is the simulator's bit pattern, and the gateway decodes them to the double with that pattern |
| DependencyGraph.OrderExcludesCycle | crates/telemux/src/config.rs:296-322 | if all computed sensors can be listed with references first there is no cycle |
| DependencyGraph.WalkCloses | crates/telemux/src/config.rs:303-306 | reaching an active node again closes a cycle |
| CycleCheck.CycleSearch.Visit | crates/telemux/src/config.rs:298-318 | an error means a cycle exists; success means the node and all it refers to are finished in order; terminates by nodes not yet coloured |
| CycleCheck.CycleSearch.VisitInputs | crates/telemux/src/config.rs:310-314 | the same for the inputs of an active node, in any iteration order |
| CycleCheck.CycleSearch.Check | crates/telemux/src/config.rs:319-322 | succeeds if and only if the reference graph has no cycle |
| EvaluationOrder.OrderSearch.Visit | crates/telemux/src/computed.rs:104-122 | keeps the order duplicate-free and, without a cycle, references first; the visited node is listed |
| EvaluationOrder.Build | crates/telemux/src/computed.rs:96-130 | lists each configured sensor exactly once, and inputs strictly before users if and only if there is no cycle |
| ComputedRun.Eval | crates/telemux/src/computed.rs:56-78 | the expression over the inputs' current values, and nothing as soon as one has none, in any input order |
| ComputedMeaning.EvaluateMeans | crates/telemux/src/computed.rs:56-78 | given a binding of each variable to its input's metric value, or raw value without a metric, the result is the expression's value under it with the configured unit and status normal, or none if the variables do not bind |
| ComputedMeaning.EvaluateIff | crates/telemux/src/computed.rs:58-70 | there is a result if and only if every input has a metric or a raw sample and the variables bind |
| ComputedMeaning.SettledMeans | crates/telemux/src/computed.rs:152-158 | in a settled store a computed sensor holds its expression over the final metric or else raw values of its inputs, its unit and no raw sample if it can be evaluated, and what it held before otherwise |
| ComputedRun.Run | crates/telemux/src/computed.rs:152-158 | the pass over the store equals the fold of single evaluations |
| ComputedRun.RunSettles | crates/telemux/src/computed.rs:152-158 | after one pass in dependency order every computed sensor holds its expression over the final values, and all other entries are as before |
| ComputedRun.SettledIsUnique | crates/telemux/src/computed.rs:97-98 | there is only one settled store for a given start |
| ComputedRun.RunIsOrderIndependent | crates/telemux/src/computed.rs:96-130 | two dependency orders of the same sensors give the same store |
| ComputedRun.RunIsIdempotent | crates/telemux/src/computed.rs:152-158 | a second pass changes nothing |
| ComputedEngine.ComputedEngine.constructor | crates/telemux/src/computed.rs:89-94 | starts with the sensors of a valid configuration in dependency order |
| ComputedEngine.ComputedEngine.Refresh | crates/telemux/src/computed.rs:133-141 | rebuilds from the current configuration exactly when the revision differs |
| ComputedEngine.ComputedEngine.RunOn | crates/telemux/src/computed.rs:152-158 | one pass settles the store for the configuration the engine was built from |
| ComputedEngine.ValidConfigSettlesUniquely | crates/telemux/src/computed.rs:96-158 | for a valid configuration the settled store is unique, is the result of any run, and is left alone by a second run |
| ComputedEngine.ConfigHandle.Update | crates/telemux/src/config_handle.rs:92-104 | succeeds exactly when the change succeeds with a valid result, which is then stored and counted; otherwise nothing changes |
| MetricStore.Store.UpdateRaw | crates/telemux/src/store.rs:43-52 | replaces the raw sample and keeps the metric |
| MetricStore.Store.UpdateBatchRaw | crates/telemux/src/store.rs:55-59 | records the samples one after another |
| MetricStore.Store.UpdateMetric | crates/telemux/src/store.rs:63-74 | replaces sample and metric of one sensor |
| GatewayValidate.Validate | crates/telemux/src/config.rs:91-324 | accepts exactly the valid configurations |
| GatewayValidate.ValidateDevices | crates/telemux/src/config.rs:103-215 | accepts exactly well-formed devices with unique names and gateway-wide unique ids, and collects the ids |
| GatewayValidate.ValidateRegisters | crates/telemux/src/config.rs:156-214 | accepts exactly registers that are well-formed, uniquely named and pairwise clash-free, with new ids |
| GatewayValidate.TakeRange | crates/telemux/src/config.rs:171-213 | a register is taken only without a clash; a refusal means the register list is invalid |
| GatewayValidate.NoClashIff | crates/telemux/src/config.rs:194-213 | registers do not clash if and only if no address of an area is taken by two of them |
| GatewayValidate.RegisterOkIff | crates/telemux/src/config.rs:171-194 | well-formed registers: bits are booleans, only coils and holding registers are writable, the count is the number of words of the type, and the last word lies below 65535 |
| GatewayValidate.ValidatePipelines | crates/telemux/src/config.rs:219-243 | accepts exactly unique pipelines for known registers with valid stages |
| GatewayValidate.ValidateComputed | crates/telemux/src/config.rs:249-322 | accepts exactly new unique ids, known inputs, bindable expressions and no cycle |
| AddRegister.Draft.AddRegister | crates/telemux/src/config.rs:329-393 | accepts exactly a new id on an existing device without overlap and with a matching pipeline, and then appends the register to that device and the pipeline to the others; on an error nothing changes |
| AddRegister.IncrementalAgreesWithFull | crates/telemux/src/config.rs:326-393 | from a valid configuration, the extended one is valid if and only if the incremental check accepts and the local rules hold |
| HotReload.StepInv | crates/telemux/src/config_handle.rs:92-104 | every step of every updater and cache keeps the invariant |
| HotReload.ReachableInv | crates/telemux/src/config_handle.rs:92-104 | the invariant holds after every interleaving |
| HotReload.StoredConfigIsValid | crates/telemux/src/config_handle.rs:96-102 | the stored configuration is always valid and the revision counts the commits, modulo 2^64 |
| HotReload.CurrentRevisionIsCurrentConfig | crates/telemux/src/pipeline/mod.rs:219-230 | when no commit is in progress, a resting cache with the current revision was built from the current configuration |
| HotReload.CachedConfigIsValid | crates/telemux/src/pipeline/mod.rs:219-230 | every cache was built from a configuration that was valid and stored at some time |
| HotReload.AtMostOneCommitBehind | crates/telemux/src/computed.rs:133-141 | even during a commit a cache with the current revision is at most that commit behind |
| HotReload.QuietRefreshCatchesUp | crates/telemux/src/computed.rs:133-141 | a refresh during which nothing commits ends with the current configuration and revision |
| HotReload.CommitAppliesChange | crates/telemux/src/config_handle.rs:97-101 | a commit stores the change applied to the configuration its copy was taken from, which is the replaced one if nobody committed between |
| HotReload.UpdatesMayBeLost | crates/telemux/src/config_handle.rs:97-101 | an interleaving: two updates take their copies before either commits; both succeed, whatever changes they make, and the second replaces the first |
| LostUpdates.CommitKeepsIff | crates/telemux/src/config_handle.rs:96-102 | in every interleaving of updates that add new ids, a commit keeps the ids stored before it if and only if nobody has committed since its copy was taken |
| LostUpdates.NothingLostIff | crates/telemux/src/config_handle.rs:96-102 | after every such interleaving all ids ever stored are stored if and only if no commit came between another one and its copy |
| LostUpdates.ReachableOwners | crates/telemux/src/config_handle.rs:96-102 | throughout, what each update in progress adds was never stored and nobody else is adding it, and each commit stored something new |
| LostUpdates.AllDifferentAddsNew | crates/telemux/src/config_handle.rs:96-102 | updates that add different ids, absent at the start, are such an interleaving |
| RacingRegisters.AddingAdds | crates/telemux/src/dashboard/server.rs:170-172 | adding a register adds exactly its id, and fails where the id is present |
| RacingRegisters.CommitKeepsRegistersIff | crates/telemux/src/dashboard/server.rs:170-172 | in every interleaving of updates that add different registers, a commit keeps all stored registers if and only if nobody has committed since its copy was taken |
| RacingRegisters.NoRegisterLostIff | crates/telemux/src/dashboard/server.rs:170-172 | after every such interleaving no register ever stored is missing if and only if no commit came between another one and its copy |
| RacingRegisters.AddedRegisterMayBeLost | crates/telemux/src/config_handle.rs:97-101 | in that interleaving of two updates, whatever two different registers they add, both accepted, the first is missing in the end |
| DeviceTask.StepInv | crates/telemux/src/acquisition/manager.rs:89-137 | every step of clients, polls, backoff and shutdown keeps the invariant |
| DeviceTask.ReachableInv | crates/telemux/src/acquisition/manager.rs:76-138 | the invariant holds after every interleaving |
| DeviceTask.OneReplyEachInSendOrder | crates/telemux/src/acquisition/manager.rs:120-131 | the queue never exceeds 16, and replies answer the requests one by one in send order |
| DeviceTask.WrittenInSendOrder | crates/telemux/src/acquisition/manager.rs:196-211 | the device was written exactly with the accepted requests, at strictly increasing places among all requests sent |
| DeviceTask.ClientResultIsTrue | crates/telemux/src/protocol/mod.rs:157-180 | success only if the source accepted that value for that sensor; no reply only if the loop ended before serving it; closed only after it ended |
| DeviceTask.NobodyWaitsForever | crates/telemux/src/protocol/mod.rs:174-179 | once the loop has ended every client gets a result, and requests still queued end without a reply |
| DeviceTask.BackoffAndRefusals | crates/telemux/src/acquisition/manager.rs:142-211 | backoff only without a source and after a failure; the count is the failing streak; a write is refused exactly when served without a source |
| DeviceTask.StreakCounts | crates/telemux/src/acquisition/manager.rs:142-190 | the streak is the number of failed connects and polls after the last connect or good poll |
| DeviceTask.LiveIff | crates/telemux/src/acquisition/manager.rs:142-190 | there is a source exactly if only writes were served since some connect or good poll |
| DeviceTask.DelayBounds | crates/telemux/src/acquisition/manager.rs:219-222 | the shift does not overflow, the delay never falls with more failures and lies between min(2 base, max) and max |
| DeviceTask.DelayDoubles | crates/telemux/src/acquisition/manager.rs:219-222 | the delay starts at the initial one, at least a millisecond; each of the first ten failures doubles it up to the maximum and later ones leave it |
| DeviceTask.DelayReachesMaximum | crates/telemux/src/acquisition/manager.rs:219-222 | after ten failures the delay is the configured maximum, if that is at most 1024 times the initial one |
| Codec.EncodeDecode | crates/telemux/src/protocol/modbus_server.rs:123-139 | encoding what was decoded gives back the words: all integers in both orders, non-NaN binary32, and booleans exactly for 0 and 1 |
| Codec.DecodeEncode | crates/telemux/src/acquisition/decoder.rs:8-28 | decoding what was encoded gives the value rounded and limited to the type's range |
| Codec.HeldIsNearest | crates/telemux/src/protocol/modbus_server.rs:125-128 | for integer types that is a value of the range, and none of the range is nearer |
| CodecLaws.WordMeans | crates/telemux/src/acquisition/decoder.rs:8-18 | a word decodes to itself, to the 16-bit signed integer congruent to it modulo 65536, or to one exactly if it is nonzero |
| CodecLaws.WordPairMeans | crates/telemux/src/acquisition/decoder.rs:8-28 | two words decode to 65536 times the high one plus the low one, the high one first in big and last in little order; to the signed integer congruent to that modulo 2^32; or to the binary32 value with that pattern |
| CodecLaws.ValueToWord | crates/telemux/src/protocol/modbus_server.rs:123-131 | a value is encoded as the nearest integer of the type's range, the one farther from zero of two, infinities at its ends and NaN as zero, in two's complement; a boolean is 1 exactly if the value is nonzero |
| CodecLaws.ValueToWordPair | crates/telemux/src/protocol/modbus_server.rs:123-139 | the same for 32-bit integers, whose two words stand for the number in the given order, and for binary32 patterns |
| ModbusTable.Table.Build | crates/telemux/src/protocol/modbus_server.rs:59-99 | each area is the concatenation of the blocks of its registers in configuration order, computed sensors last among the inputs |
| ModbusTable.AppendWords | crates/telemux/src/protocol/modbus_server.rs:101-120 | appends one block of as many words as the type takes, numbered from zero |
| ModbusTable.BlockIsContiguous | crates/telemux/src/protocol/modbus_server.rs:101-120 | a register owns consecutive addresses, numbered from zero, where the blocks before it end |
| ModbusTable.AddressHasOwner | crates/telemux/src/protocol/modbus_server.rs:59-99 | every address belongs to the block of one register |
| ModbusTable.ComputedBlockIsContiguous | crates/telemux/src/protocol/modbus_server.rs:87-97 | computed sensor k owns the two input addresses after the registers and the k computed sensors before it |
| ModbusTable.InputAddressHasOwner | crates/telemux/src/protocol/modbus_server.rs:59-99 | every served input address belongs to the block of one register or one computed sensor |
| ModbusTable.InsertionInsertsOneBlock | crates/telemux/src/protocol/modbus_server.rs:59-99 | a register inserted anywhere inserts one block in its own area and leaves the others unchanged |
| ModbusTable.InsertRegisterKeepsIff | crates/telemux/src/protocol/modbus_server.rs:59-99 | inserting a register keeps the addresses of a served word area if and only if it is in another area or nothing of that area follows, computed sensors included |
| ModbusTable.InsertRegisterKeepsBitsIff | crates/telemux/src/protocol/modbus_server.rs:64-77 | the same for the coil and discrete-input areas |
| AddressStability.AddedRegisterKeepsAddressesIff | crates/telemux/src/protocol/modbus_server.rs:6-7 | for each of the four areas: a register added to a device at run time keeps all addresses if and only if it is in another area, or no later device has a register there and, among the inputs, there are no computed sensors |
| GatewayExamples.AddedRegisterMovesHolding | crates/telemux/src/protocol/modbus_server.rs:6-7 | a valid configuration and an accepted register that moves another device's holding register |
| ModbusTable.AppendComputedKeepsAddresses | crates/telemux/src/protocol/modbus_server.rs:87-97 | appending a computed sensor keeps every address |
| ModbusTable.ReadWords | crates/telemux/src/protocol/modbus_server.rs:219-241 | the words of the range, or an address error if it leaves the area |
| ModbusTable.ReadBits | crates/telemux/src/protocol/modbus_server.rs:199-217 | bits outside the area or without a value read as off, the others as nonzero |
| ModbusTable.SpanDecodesToHeld | crates/telemux/src/protocol/modbus_server.rs:219-241 | a sensor's whole span, read and decoded with its own type and order, gives its stored value rounded and limited |
| ModbusTable.ComputedSpanDecodesToHeld | crates/telemux/src/protocol/modbus_server.rs:219-241 | the same for a computed sensor, read as a binary32 value |
| ReadBack.PolledWordsAreServed | crates/telemux/src/protocol/modbus_server.rs:122-139 | a register without a metric serves over its whole span exactly the words polled from the device: integers always, finite binary32 values other than negative zero, booleans for 0 and 1 |
| ReadBack.MetricIsServed | crates/telemux/src/protocol/modbus_server.rs:302-309 | with a metric its span decodes to the metric's value, rounded and limited |
| ModbusTable.PlaceholderIsAllOnesIff | crates/telemux/src/protocol/modbus_server.rs:233 | without data all words are 0xFFFF if and only if the type is unsigned 16-bit |
| ModbusTable.MissingSpanIsAllOnesIff | crates/telemux/src/protocol/modbus_server.rs:233-237 | the span of a register without a value reads all ones if and only if the register is unsigned 16-bit |
| WriteRouting.Gateway.Broker | crates/telemux/src/protocol/mod.rs:157-180 | a write is made and acknowledged exactly when device and writable register are found and the device confirms |
| WriteRouting.Gateway.WriteWord | crates/telemux/src/protocol/modbus_server.rs:262-280 | a successful write appends one write: the resolved register's device name, the holding area, its own address and the word itself; otherwise nothing is written and the exception says why |
| WriteRouting.Gateway.WriteBit | crates/telemux/src/protocol/modbus_server.rs:243-260 | the same in the coil area, with value 1 exactly if the coil is to be on |
| WriteRouting.Gateway.WriteWords | crates/telemux/src/protocol/modbus_server.rs:282-300 | the writes made are the first word, or a zero, at the first address; the answer has the full count |
| WriteRouting.ForwardFindsEntry | crates/telemux/src/acquisition/mod.rs:145-172 | for a valid configuration the lookup by device name and sensor id finds the register the slot was made from |
| WriteRouting.WordGoesToOwner | crates/telemux/src/protocol/modbus_server.rs:262-280 | an address resolves to its owner exactly when that is a read-write single-word register, and is refused as an illegal function otherwise |
| WriteRouting.IllegalAddressIff | crates/telemux/src/protocol/modbus_server.rs:268-271 | an address error is given exactly beyond the last block |
| WriteRouting.ResolvedWordIsOwner | crates/telemux/src/acquisition/mod.rs:145-172 | no read-only, multi-word or non-holding register is ever written, and the one written has its slot at the address |
| WriteRouting.HoldingIsReached | crates/telemux/src/acquisition/mod.rs:145-185 | every read-write single-word holding register has a table address, and one within 16 bits resolves to the name of its device and to the register itself |
| WriteRouting.CoilIsReached | crates/telemux/src/acquisition/mod.rs:196-222 | the same for read-write coils |
| WriteRouting.DistinctWordsDistinctTargets | crates/telemux/src/config.rs:158-213 | different addresses reach different device registers |
| WriteRouting.CoilGoesToOwner | crates/telemux/src/acquisition/mod.rs:196-222 | a coil address resolves to its coil exactly when that is read-write |
| WriteRouting.IllegalCoilIff | crates/telemux/src/protocol/modbus_server.rs:249-253 | an address error for a coil is given exactly beyond the last coil |
| WriteRouting.DistinctCoilsDistinctTargets | crates/telemux/src/config.rs:158-213 | different coil addresses reach different coils |
| WriteRouting.LaterWordsNotWritten | crates/telemux/src/protocol/modbus_server.rs:295-299 | a multi-register write never writes the register of any word after the first |
| WriteRouting.MultiWriteIsCompleteIff | crates/telemux/src/protocol/modbus_server.rs:282-300 | an acknowledged multi-register write wrote every word to its register, and nothing else, if and only if it has exactly one word |
| GatewayExamples.MultiWriteLosesWord | crates/telemux/src/protocol/modbus_server.rs:295 | a valid configuration with two writable registers and an acknowledged request for both, of which the second is never written |
| WindowStatistics.LastAppend | crates/telemux/src/pipeline/stages.rs:51-54 | pushing and popping at the front keeps the last min(n, window) values |
| WindowStatistics.MinIsLeast | crates/telemux/src/pipeline/stages.rs:202-206 | the minimum is in the window and at most every value |
| WindowStatistics.MaxIsGreatest | crates/telemux/src/pipeline/stages.rs:207-211 | the maximum is in the window and at least every value |
| WindowStatistics.MeanIsBetween | crates/telemux/src/pipeline/stages.rs:55 | the mean lies between minimum and maximum |
| WindowStatistics.SortedIsUnique | crates/telemux/src/pipeline/stages.rs:81-82 | the values have one ascending arrangement |
| WindowStatistics.MedianOfAnySort | crates/telemux/src/pipeline/stages.rs:81-88 | any ascending permutation of the window gives the same median |
| WindowStatistics.MedianHalves | crates/telemux/src/pipeline/stages.rs:83-88 | at most half of the values lie below the median and at most half above |
| Stages.Stage.Push | crates/telemux/src/pipeline/stages.rs:51-54 | the buffer of a windowed stage stays the window of everything received |
| Stages.Stage.Process | crates/telemux/src/pipeline/stages.rs:24-216 | value, unit and status become the stage's function of everything it has received; an expression that does not bind fails and changes nothing |
| StageLaws.ScaleLaw | crates/telemux/src/pipeline/stages.rs:24-31 | zero becomes the offset, two inputs differ by the scale times their difference, the unit is replaced exactly if one is configured, and the status is kept |
| StageLaws.SumLaw | crates/telemux/src/pipeline/stages.rs:55 | the total of values is additive and counts each once |
| StageLaws.SlidingAverageLaw | crates/telemux/src/pipeline/stages.rs:49-57 | the result times the number of values in the window is their total |
| StageLaws.AggregateLaw | crates/telemux/src/pipeline/stages.rs:195-215 | minimum and maximum are in the window and bound it, each under its own mode; the mean times the number of values is their total |
| StageLaws.MedianLaw | crates/telemux/src/pipeline/stages.rs:75-90 | the middle of any ascending permutation of the window, or half the sum of its two middle values |
| StageLaws.MathLaw | crates/telemux/src/pipeline/stages.rs:111-120 | the expression's value at the variable v equal to the input, or a failure if it has other variables |
| StageLaws.ThresholdLaw | crates/telemux/src/pipeline/stages.rs:147-175 | critical exactly outside a critical bound, a warning exactly outside a warning bound when not critical, and the value is kept |
| Stages.MeanOf | crates/telemux/src/pipeline/stages.rs:55 | adding up and dividing gives the mean |
| Pipeline.OutputsAppend | crates/telemux/src/pipeline/mod.rs:102-104 | one more reading adds at most one output, the stage's for the longer history |
| Pipeline.SameFromThere | crates/telemux/src/pipeline/mod.rs:102-104 | a reading that failed at a stage is missing from all later histories |
| Pipeline.ChainAcceptsIff | crates/telemux/src/pipeline/mod.rs:97-106 | a chain accepts every sample or none: all if and only if it has a stage and all its expressions bind the variable v |
| StageLaws.ChainInOrder | crates/telemux/src/pipeline/mod.rs:102-104 | the stages run in order: what the first ones pass on is what the rest receives |
| StageLaws.OneStage | crates/telemux/src/pipeline/mod.rs:102-104 | a chain of one stage passes on, for each reading, the stage's output for the values received so far |
| Pipeline.CheckedChainMayNeverProduce | crates/telemux/src/pipeline/mod.rs:127-130 | a chain that passes the configuration check and never produces a metric |
| Pipeline.Pipeline.RunStage | crates/telemux/src/pipeline/mod.rs:102-104 | one stage stays in step with the longer history |
| Pipeline.Pipeline.RunStages | crates/telemux/src/pipeline/mod.rs:102-104 | all stages stay in step, also after a failure in the middle |
| Pipeline.Pipeline.Process | crates/telemux/src/pipeline/mod.rs:97-106 | the metric, or the failure, is the one determined by the whole history of samples |
| PipelinesCache.BuildPipelines | crates/telemux/src/pipeline/mod.rs:192-200 | one pipeline of its own objects per configured chain |
| PipelinesCache.PipelinesCache.constructor | crates/telemux/src/pipeline/mod.rs:210-215 | starts at revision zero with empty windows |
| PipelinesCache.PipelinesCache.Refresh | crates/telemux/src/pipeline/mod.rs:219-230 | rebuilds from the current configuration, with empty windows, exactly when the revision differs |
| PipelinesCache.PipelinesCache.Feed | crates/telemux/src/pipeline/mod.rs:232-234 | a sample extends its pipeline's history and no other, and the metric is the one of that history |
| Consumer.SampleConsumer.constructor | crates/telemux/src/app.rs:68-70 | an empty store and both caches built from the configuration |
| Consumer.SampleConsumer.RefreshCaches | crates/telemux/src/app.rs:154-155 | both caches follow the configuration's revision |
| Consumer.SampleConsumer.Pipe | crates/telemux/src/app.rs:166-185 | a produced metric is stored with its sample; a failure leaves the store alone |
| Consumer.SampleConsumer.PipeBatch | crates/telemux/src/app.rs:156-185 | the whole batch is recorded raw before any pipeline runs |
| Consumer.SampleConsumer.ProcessBatch | crates/telemux/src/app.rs:153-188 | one batch: the caches are refreshed, then raw samples, pipelines and one computed pass with what they now hold |
| GatewayRun.Reconfigure | crates/telemux/src/config_handle.rs:92-104 | a list of updates leaves the configuration that results from applying each that succeeds with a valid result; the revision is as before only if the configuration is |
| GatewayRun.ReceiveNow | crates/telemux/src/app.rs:153-188 | a batch is processed with the pipelines and computed sensors that the configuration asks for now |
| GatewayRun.Receive | crates/telemux/src/app.rs:151-188 | after updates by others a batch is processed with the pipelines and computed sensors of the configuration they lead to; without updates with those used before |
| GatewayRun.ReceiveAll | crates/telemux/src/app.rs:149-200 | the loop over all batches is the fold of that step; the configuration at each batch is the one before it with the updates in between applied, and the handle ends at the last; without updates all batches use the same pipelines and computed sensors |
| GatewayRun.EvolvesValid | crates/telemux/src/config_handle.rs:99 | every configuration on the way is valid |
| GatewayRun.PlannedKeepsRaw | crates/telemux/src/app.rs:156-185 | whatever changes in between, a sensor that is never a computed one holds its latest sample |
| GatewayRun.PlannedSettles | crates/telemux/src/app.rs:186-188 | and every computed sensor of the last configuration whose expression has a value over the final store holds it |
| GatewayRun.SteadyRunIsRight | crates/telemux/src/app.rs:149-200 | without changes, every device sensor holds its latest sample and the metric of the latest sample its pipeline accepted, every computed sensor its expression over the final store or nothing |
| GatewayRun.RunGateway | crates/telemux/src/app.rs:68-200 | from a valid configuration, any batches and any updates between them to the final store: the configuration evolves by exactly these updates, pipelines are those of the last configuration, sensors at no time computed hold their latest samples, computed sensors of the last configuration hold their expressions where these have a value; without updates the whole store is as it should be |
| PollToClient.ClientReadsPolledWords | crates/telemux/src/protocol/modbus_server.rs:219-241 | after a run without updates a client reads, for a register without a pipeline, exactly the words polled for it last |
| PollToClient.ClientReadsMetric | crates/telemux/src/protocol/modbus_server.rs:219-241 | and for a register with a pipeline that produces metrics, words that decode to the metric of its latest sample, rounded and limited |
| Consumer.SampleKeepsAgreement | crates/telemux/src/app.rs:166-185 | one sample brings its sensor's entry to what its history says |
| Consumer.BatchesKeepLatest | crates/telemux/src/app.rs:151-188 | after any sequence of batches with distinct ids each sensor holds its latest sample and the metric of the latest sample its pipeline accepted |
| Consumer.MetricIsOfLatest | crates/telemux/src/app.rs:166-185 | that metric is the one for the latest sample, or there is none at all |
| StageLaws.OneStageMetric | crates/telemux/src/pipeline/mod.rs:41-62 | the metric of a sensor with one stage is the stage's output for the raw value and unit of the latest sample, with status normal, after the raw values of all its samples |
| StageLaws.ScaledMetric | crates/telemux/src/pipeline/stages.rs:24-31 | a scaled sensor holds its latest raw value times the scale plus the offset, with the configured or the raw unit and status normal |
| StageLaws.AveragedMetric | crates/telemux/src/pipeline/stages.rs:49-57 | an averaged sensor holds a metric that, times the number of latest samples in the window, is the total of their raw values |
| Consumer.BatchesSettle | crates/telemux/src/app.rs:186-188 | every computed sensor holds its expression over the final store, and nothing while one of its inputs has no value |
| ComputedMeaning.BatchesMean | crates/telemux/src/app.rs:186-188 | after any batches a computed sensor holds its expression over the final metric or else raw values of its inputs if it can be evaluated, and nothing otherwise |

## Left out

- Parsing and evaluating expressions and extracting names from formulas: library code; formulas are uninterpreted.
- Floating-point rounding, NaN and infinities in stages, store and simulator values: exact reals; the finiteness check of the scale factor has no counterpart there.
- The bits of binary32 values: a parameter, with exactness of widening as a stated hypothesis where it is needed.
- The clock: time is fixed during a pass, although each word read evaluates the formulas again; timestamps are dropped.
- Transports, timeouts, serial lines and the contents of a poll: a source accepts or fails as an oracle decides.
- The loops over the word count of a simulator read request: one word is modelled per address.
- Poisoned locks, and weaker memory orders than sequential consistency.
- The store's change-notification channel.
- Saving and loading configuration files, and fields that no modelled code looks at.
- Redfish, HTTP, the dashboard, the health endpoint, logging and the command line: plumbing with easy branches.
- Error texts, and which of several errors of a configuration is reported first.
- HotReload.CurrentRevisionIsCurrentConfig: the revision wraps after 2^64 commits, so a cache must have loaded it within that many.
- AddRegister.IncrementalAgreesWithFull: about no pipeline or one for the new register; the incremental check refuses others, which the full check might accept.
- Consumer.BatchesKeepLatest: under one configuration; across changes GatewayRun.PlannedKeepsRaw and GatewayRun.PlannedSettles remain, while the windows start anew and metrics of removed pipelines and computed sensors stay in the store.
- GatewayRun.Receive: changes of the configuration come between batches, fewer than 2^64 before each; a change during a batch is seen by the next one, and its small steps are in HotReload.
- RacingRegisters.NoRegisterLostIff: about updates that add registers with different ids, the only updates the repository makes; a register that was lost and is added again is not covered.
- ReadBack.PolledWordsAreServed: nothing is said for negative zero, which stored reals do not distinguish, infinities and NaN.
- WriteRouting.Gateway.WriteWord: only confirmed writes are recorded as made; a write whose confirmation is lost or late may have reached the device all the same.
- DeviceTask.BackoffAndRefusals: the failure counter is unbounded rather than 64 bits wide.
- Codec.EncodeDecode: nothing is said for NaN patterns, whose payload the conversion may change.
