# A verified model of the TPT DataCenter control and telemetry core

This project models, in Dafny, the parts of TPT DataCenter that carry state:
the concurrent telemetry pipeline, the edge supervisor in closed loop with its
simulated rack, the physical topology graph, the two audited command services,
the two wire formats, and the guardrails and returns of the thermal AI brain.
Each component is written as the source is: objects whose methods update fields
are classes, loops are loops, and every such method is tied to a function of its
inputs and old state; the promises are theorems about those functions, over
every run and every interleaving.

| file | what it holds |
|---|---|
| PipelineMachine, PipelineSafety, PipelineTheorems, SourceOrder | sources, bounded bus, batching workers, sink and dead letters as a machine of atomic steps; its invariant; order, conservation, shutdown; what the sources forward |
| PipelineWorker, Metrics | the worker loop and `flush` as code, refining the machine; counters; the dead-letter buffer |
| Hal, Safety, Pid, Agents | commands and snapshots, the safety enforcer, the control laws |
| Simulator, Supervisor | the plant, and the latching fail-safe supervisor with an arbitrary control law |
| ClosedLoop, RackSupervisor, Bench, EdgeProgram | the two composed: thermal safety and recovery; the standard rack; a facility of many racks; the bench program |
| Topology, Walks, WalkOrder, Ordering, Spec, Graph | the doubly indexed graph, reachability in hops, the order of a breadth-first walk, sorting, the spec round trip, the graph object with its walk |
| Commands, AuditLog, ControlStore | request values and limits, the bounded log, the manual-override store |
| Orchestrator, ConcurrentSubmits, SubmitRaces, AgreeingSubmits, LogFidelity | intent routing and its policy, sequentially and with overlapping submits |
| Point, Decimal, LineProtocol | the binary frame; the escaped line form, its reader and its writers |
| GuardedPolicy, Returns | rate-limited guardrails; discounted returns against the mock world |
| Sequences, Reals | shared sequence vocabulary and arithmetic |

`dafny verify dfyconfig.toml` checks everything.

## Where the code and its comments part

- Workers are said to drain the bus on shutdown (`pipeline.go:77-79`, `:94`).
  The cancelled branch of their select (`:169-171`) may leave points behind: from
  every reachable state some shutdown leaves everything on the bus that was there
  (`StopCanAlwaysComplete`), so a configuration is sure to drain iff it has no
  sources (`DrainsIff`). `ResidueExactly` says what is left in a given run, and
  `DrainedIfAnyWorkerSawClose` when nothing is.
- `PowersChain` is said to answer in topological order (`graph.go:169`). A
  breadth-first walk answers nearest first, and within a level in an order that
  follows from the order the edges were inserted in. It answers topologically for
  every such order iff every hop leads strictly farther from the start
  (`TopologicalIff`). Where a UPS powers a rack both directly and through a PDU, it
  depends on which cable to the rack was inserted first (`TopologicalOrderFails`,
  `AnswersOutOfOrder`).
- `SaveSpec` is said to be sorted for stable diffs (`author.go:32`). Edges are
  ordered by ends and kind only, so a graph has one spec iff no two of its edges
  agree in these and differ in labels (`SpecIsUniqueIff`).
- The audit queries are said to return newest first (`state.go:291-292`,
  `orchestrator.go:216`). They answer oldest first, hence newest first iff there
  is at most one entry to answer (`AuditOrder`, `AuditIsNotNewestFirst`).
- The audit is kept to record what was routed; it holds the last thousand entries
  (`orchestrator.go:252-255`). With overlapping submits it tells what a channel
  shows, in every interleaving, iff the accepted commands for that channel all carry
  one value, and either fewer than a thousand of the submits leave other entries or
  that value is the one of a channel never set (`LogIsFaithfulIff`). It may tell
  another value (`OverlapCanMislead`) or have forgotten the channel
  (`ThousandOthers`).
- `Submit` overwrites the request's value before recording
  (`orchestrator.go:176`, `:183`), so an entry's requested value always equals
  its applied one. It is the value that was requested iff the intent was refused
  before that, or the value was in normal form already (`RecordsRequestIff`).
- The two-person rule reads the valve limits for the fan as well
  (`orchestrator.go:190`). `FanRuleIff` and `FanDecisionIff` say exactly for
  which limits it is right; `FanRuleMisfires` is a fan set to its limit and let through.
- The orchestrator's clamp has no case for NaN, which therefore passes every
  check (`NaNIsForwarded`); the override store's clamp turns it into the lower limit.
- The closed loop keeps the temperature under max(start, 45 + 0.2 d) for steps
  d up to 300 s, and trivially from 775 s on; in between a single cycle can
  exceed it (`ThermalSafetyFailsBetween`).
- A tag that ends in a backslash swallows the separator behind it, and a tag
  with a newline splits its line; neither is escaped (`LineRoundTripIff`,
  `BatchSplitsIff`).

## Model

| member | source | states |
|---|---|---|
| PipelineTheorems.SendOrderSplits | go-telemetry/internal/pipeline/pipeline.go:110-193 | in every reachable state the send order is what left the bus followed by the bus; each worker's flushed batches and current batch are exactly the points it received, a subsequence of the send order; nothing is lost, doubled or reordered |
| SourceOrder.SourcesForwardPolls | go-telemetry/internal/pipeline/pipeline.go:110-138 | in every run the send order is exactly what the sources sent, and each source sent exactly what its polls returned, point by point and in order, but for what it still has in hand or, once stopped, dropped at the end; it has stopped iff it saw the cancelled context |
| SourceOrder.OnlyQuitStops | go-telemetry/internal/pipeline/pipeline.go:117-127 | no failed or empty poll stops a source |
| PipelineTheorems.SoleWorkerWritesInOrder | go-telemetry/internal/pipeline/pipeline.go:141-174 | with one worker, written points, current batch and bus concatenate to the send order |
| PipelineTheorems.CountersMidRun | go-telemetry/internal/pipeline/pipeline.go:128-135 | mid-run the ingested counter trails the sends by at most one per source, and written plus dead-lettered plus queued points never exceed the sends |
| PipelineTheorems.Conservation | go-telemetry/internal/pipeline/pipeline.go:92-100 | when Run returns, ingested = written + dead-lettered + left on the bus; they balance without a remainder iff the bus is empty |
| PipelineTheorems.DrainedIfAnyWorkerSawClose | go-telemetry/internal/pipeline/pipeline.go:157-163 | if any worker left because the bus was closed, nothing is left on it |
| PipelineTheorems.ResidueIsPossible | go-telemetry/internal/pipeline/pipeline.go:169-171 | under every configuration with a source Run may return although an ingested point was neither written nor dead-lettered |
| PipelineTheorems.DrainsIff | go-telemetry/internal/pipeline/pipeline.go:77-96 | every run of a configuration returns with an empty bus iff it has no sources |
| PipelineTheorems.ResidueExactly | go-telemetry/internal/pipeline/pipeline.go:92-96 | from the moment the last worker is gone, the bus is what it held then plus every later send |
| PipelineTheorems.ShutdownSafe | go-telemetry/internal/pipeline/pipeline.go:80-100 | in no reachable state can a send meet a closed bus, the bus be closed twice, or a write meet a closed sink; the bus closes after the sources, the sink after the workers |
| PipelineTheorems.MemoryBound | go-telemetry/internal/pipeline/pipeline.go:31-39 | every write has between 1 and BatchSize points; points in flight stay within buffer + workers * BatchSize; dead letters within their capacity |
| PipelineTheorems.LettersWereRefused | go-telemetry/internal/pipeline/pipeline.go:176-193 | every buffered dead letter is a point of a batch the sink refused |
| PipelineTheorems.NeverStuck | go-telemetry/internal/pipeline/pipeline.go:110-174 | after cancellation some step is enabled, and one that brings the end nearer, until Run has returned |
| PipelineTheorems.StopCanAlwaysComplete | go-telemetry/internal/pipeline/pipeline.go:103-107 | from every reachable state a Stop has a continuation in which Run returns, with everything on the bus left there |
| PipelineSafety.StepKeepsInv | go-telemetry/internal/pipeline/pipeline.go:110-193 | every atomic step of every goroutine keeps the pipeline's invariant of order, books and phases |
| PipelineSafety.RunKeepsInv | go-telemetry/internal/pipeline/pipeline.go:80-100 | every interleaving keeps it |
| PipelineMachine.New | go-telemetry/internal/pipeline/pipeline.go:55-75 | positive sizes are kept, others become 65536, 4 and 4096 (1024 for the dead-letter sink, as deadletter.go:34-37 has it), so every configuration is valid |
| PipelineWorker.FlushIsARun | go-telemetry/internal/pipeline/pipeline.go:176-193 | what flush does in one go is a run of the machine's steps: on success the counters move, on refusal every point of the batch becomes a dead letter in order, where a dead-letter sink is configured |
| PipelineWorker.TurnStream | go-telemetry/internal/pipeline/pipeline.go:155-173 | a turn of the worker loop adds exactly the received point to the worker's stream |
| PipelineWorker.SelectBegins | go-telemetry/internal/pipeline/pipeline.go:155-173 | a select of the machine's worker takes in the point and begins a flush exactly when one is due |
| PipelineWorker.FlushStages | go-telemetry/internal/pipeline/pipeline.go:148-154 | the write records the batch and its answer; the batch is emptied and the way out taken only when the counters and dead letters are done |
| PipelineWorker.TurnWrites | go-telemetry/internal/pipeline/pipeline.go:155-173 | a turn writes the batch exactly when it is full, or not empty and the wait ended otherwise |
| PipelineWorker.WorkerLoop.constructor | go-telemetry/internal/pipeline/pipeline.go:145-147 | a worker starts with an empty batch |
| PipelineWorker.WorkerLoop.WriteBatch | go-telemetry/internal/pipeline/pipeline.go:176-193 | one write; the counters and dead letters that follow from its outcome |
| PipelineWorker.WorkerLoop.DeadLetterAll | go-telemetry/internal/pipeline/pipeline.go:180-188 | every point of the batch is put, in order, and counted |
| PipelineWorker.LettersTell | go-telemetry/internal/pipeline/pipeline.go:180-188 | one letter for each point, in order, with the sink's error |
| PipelineWorker.WorkerLoop.Flush | go-telemetry/internal/pipeline/pipeline.go:148-154 | an empty batch is not written; otherwise the batch is written once and emptied |
| PipelineWorker.WorkerLoop.Iterate | go-telemetry/internal/pipeline/pipeline.go:155-173 | the batch is written, whole and once, exactly when it is not empty and either full or met by the timer, the closed bus or cancellation; counters and dead letters follow; the loop is left for the last two only; all this is one turn of the machine's worker |
| PipelineWorker.WorkerLoop.Run | go-telemetry/internal/pipeline/pipeline.go:141-174 | over any events the worker goes through exactly the machine's turns; each received point is in exactly one write, in order, or in the pending batch; the counters grow by the points accepted and refused |
| Metrics.DeadLetterLedger | go-telemetry/internal/metrics/deadletter.go:44-90 | over every history of puts and drains the buffer is bounded, each put is delivered, buffered or evicted exactly once, and survivors keep put order |
| Metrics.KeepsMostRecent | go-telemetry/internal/metrics/deadletter.go:44-55 | between drains the buffer holds exactly the most recent entries |
| Metrics.DeadLetterSink.constructor | go-telemetry/internal/metrics/deadletter.go:34-41 | a non-positive capacity becomes 1024 |
| Metrics.DeadLetterSink.Put | go-telemetry/internal/metrics/deadletter.go:44-55 | the oldest entry gives way when full; the put is counted |
| Metrics.DeadLetterSink.Take | go-telemetry/internal/metrics/deadletter.go:80-90 | the locked part of Drain takes everything, in order |
| Metrics.DeadLetterSink.Len | go-telemetry/internal/metrics/deadletter.go:93-97 | the number buffered |
| Metrics.Registry.IncWritten | go-telemetry/internal/metrics/metrics.go:36-36 | adds to its own counter only |
| Metrics.Registry.IncBatches | go-telemetry/internal/metrics/metrics.go:39-39 | adds to its own counter only |
| Metrics.Registry.IncWriteErrors | go-telemetry/internal/metrics/metrics.go:42-42 | adds to its own counter only |
| Metrics.Registry.IncDeadLetters | go-telemetry/internal/metrics/metrics.go:45-45 | adds to its own counter only |
| ClosedLoop.ThermalSafety | rust-edge/src/control/supervisor.rs:125-213 | whatever the control law, the faults, the latch and operator resets do, no rack exceeds max(start, 45 + 0.2 d) over any run of steps of at most d, for d up to 300 s or from 775 s |
| ClosedLoop.ThermalSafetyFailsBetween | rust-edge/src/hal/simulator.rs:151-165 | for every d strictly between 300 s and 775 s one cycle of one control law breaks that bound |
| ClosedLoop.HotMeansFullyOpen | rust-edge/src/control/safety.rs:107-119 | above 45 degrees every cycle leaves valve and fan fully open, read or not, latched or not |
| ClosedLoop.FullCoolingStep | rust-edge/src/hal/simulator.rs:151-165 | under full cooling a step contracts the distance to the balance point by 1 - 0.045 dt, exactly so with the outlet on |
| ClosedLoop.HotCycleCools | rust-edge/src/hal/simulator.rs:151-165 | while it is above 45 degrees every cycle moves the temperature strictly down |
| ClosedLoop.HotRunCools | rust-edge/src/hal/simulator.rs:151-165 | over n hot cycles the distance shrinks n times by that factor |
| ClosedLoop.RecoversWithin | rust-edge/src/control/supervisor.rs:125-213 | if the shrunken distance falls inside the critical limit in n cycles, the rack has been at or below 45 degrees by then |
| ClosedLoop.NineCyclesSuffice | rust-edge/src/bin/tpt-edge.rs:58-81 | at 5 s steps any rack up to 200 degrees is at or below 45 within nine cycles, and below 46 from then on |
| ClosedLoop.WarmingBound | rust-edge/src/hal/simulator.rs:151-165 | no actuator setting warms a rack faster than 0.2 degrees per second beyond max(45, its temperature) |
| ClosedLoop.ShrunkIsPower | rust-edge/src/hal/simulator.rs:164-165 | shrinking n times by a factor is multiplying by its n-th power |
| Bench.RunBench | rust-edge/src/bin/tpt-edge.rs:58-81 | after any number of cycles of the whole facility each rack stands where its own closed loop puts it, untouched by the others |
| Bench.Sweep | rust-edge/src/bin/tpt-edge.rs:60-79 | in one sweep each rack is commanded by its own supervisor, from what it read, and by no other |
| Bench.OneCycle | rust-edge/src/bin/tpt-edge.rs:60-61 | one supervisor's cycle moves its own rack only |
| Bench.OneRound | rust-edge/src/bin/tpt-edge.rs:58-81 | a sweep followed by one tick of every rack |
| Bench.ScheduleShows | rust-edge/src/bin/tpt-edge.rs:58-81 | cycle by cycle: a second apart, read at the plant's own clock, no faults, equal ticks |
| Bench.BenchIsSafe | rust-edge/src/bin/tpt-edge.rs:58-81 | on that schedule the thermal bound and the nine-cycle recovery hold |
| EdgeProgram.RunProgram | rust-edge/src/bin/tpt-edge.rs:21-95 | on any number of racks, setpoint and options: thirty uncooled ticks bring every rack to 54 degrees, 120 supervised cycles leave each where its own closed loop puts it, at 46 or below, so the closing assertion that the peak fell holds |
| EdgeProgram.Boot | rust-edge/src/bin/tpt-edge.rs:28-41 | the facility after the uncooled ticks |
| EdgeProgram.SwitchOff | rust-edge/src/bin/tpt-edge.rs:30-38 | every rack's valve and fan are closed, and nothing else changes |
| EdgeProgram.Heat | rust-edge/src/bin/tpt-edge.rs:39-41 | each uncooled tick of 5 s warms every rack by one degree |
| EdgeProgram.ReadTemps | rust-edge/src/bin/tpt-edge.rs:97-108 | the temperature of every rack, in order |
| EdgeProgram.Supervisors | rust-edge/src/bin/tpt-edge.rs:54-56 | a fresh standard supervisor for each rack |
| EdgeProgram.Control | rust-edge/src/bin/tpt-edge.rs:58-81 | the supervised cycles leave every rack at or below 46 degrees |
| RackSupervisor.RackCycle | rust-edge/src/control/supervisor.rs:311-329 | after any history: no cycle asks for or writes an outlet going on; a healthy cycle applies the request unchanged; unhealthy iff tripped, and then a safe state is written |
| RackSupervisor.AgentsStayPercent | rust-edge/src/control/agents.rs:110-136 | in every reachable state the rack's agents only ask for percentages |
| RackSupervisor.ShedStaysShed | rust-edge/src/control/agents.rs:166-198 | over every closed-loop run, with faults and operator resets of the latch at any turn, an outlet once off stays off |
| RackSupervisor.StandardLaws | rust-edge/src/control/supervisor.rs:309-331 | the standard rack sheds outside 198 to 264 volts or above 80 amperes, and limits discharge to 100, 80 or 50 % below 20, below 80 and from 80 % of charge |
| RackSupervisor.FirstTwoCycles | rust-edge/src/control/supervisor.rs:309-329 | at 35 degrees over a setpoint of 30 the standard rack asks for 37.5 % valve and 15 % fan, a second later for 35 and 14 |
| Supervisor.LatchedIffStreak | rust-edge/src/control/supervisor.rs:114-175 | latched iff the reads since the last reset contain max(1, limit) consecutive failures; until then the counter is the current failure streak, and it never exceeds the limit |
| Supervisor.StreakIsConsecutive | rust-edge/src/control/supervisor.rs:153-172 | a streak of n is n consecutive failed reads somewhere, and conversely |
| Supervisor.LatchedCycle | rust-edge/src/control/supervisor.rs:133-149 | a latched cycle does not depend on the device, leaves the agent alone and writes the fail-safe commands |
| Supervisor.LatchHolds | rust-edge/src/control/supervisor.rs:131-149 | without a reset a latched supervisor only counts cycles |
| Supervisor.AppliedCommands | rust-edge/src/control/supervisor.rs:125-213 | which cycles are healthy; what is asked for and written in each case: fail-safe commands while latched or blind, full cooling on a thermal breach, shedding on an electrical one alone, else the agent's commands clamped |
| Supervisor.AgentIsAsked | rust-edge/src/control/supervisor.rs:176-179 | a cycle that reads asks the agent once about what was read and keeps its new state, also on a breach |
| Supervisor.AgentIsTaught | rust-edge/src/control/supervisor.rs:119-213 | over every history the agent has been asked about exactly the reads that succeeded while not latched, in order |
| Supervisor.HeartbeatPeriod | rust-edge/src/control/supervisor.rs:216-254 | heartbeats fall on multiples of the period, on every way out of a cycle, and tell device, cycle, time, health, trip and error count |
| Supervisor.SupervisorObject.constructor | rust-edge/src/control/supervisor.rs:91-107 | a new supervisor has counted nothing and is not latched |
| Supervisor.SupervisorObject.ResetLatch | rust-edge/src/control/supervisor.rs:114-117 | clears latch and error count, keeps agent and cycle |
| Supervisor.SupervisorObject.Deliver | rust-edge/src/control/supervisor.rs:135-138 | each command reaches the device in turn |
| Supervisor.SupervisorObject.ReadDevice | rust-edge/src/control/supervisor.rs:151-152 | the readings, or the fault that stood in the way |
| Supervisor.SupervisorObject.RunCycle | rust-edge/src/control/supervisor.rs:125-213 | one cycle against the simulator: new mode, outcome, and the whole facility afterwards |
| Safety.TripsExactlyOnBreach | rust-edge/src/control/safety.rs:107-153 | commands pass iff every reported reading is in its band; a thermal breach cools fully, an electrical one without it also sheds |
| Safety.AllowedLieInEnvelope | rust-edge/src/control/safety.rs:156-170 | what passes lies in the envelope, each value moved to the nearest bound where it lay outside; it is unchanged iff all of it lay inside |
| Safety.ReasonIsBreach | rust-edge/src/control/safety.rs:106-150 | the reason of a trip is a breach there is, thermal before electrical |
| Safety.DefaultTrips | rust-edge/src/control/safety.rs:40-55 | the default limits: 5 to 45 degrees, 198 to 264 volts, up to 80 amperes |
| Hal.ClampIsNearest | rust-edge/src/hal/types.rs:131-142 | clamping moves to the nearest point of the interval |
| Hal.ClampedIffPercent | rust-edge/src/hal/types.rs:131-142 | a clamped command is a percentage, unchanged iff it was one |
| Hal.LastReadingWins | rust-edge/src/control/mod.rs:41-59 | a snapshot answers with the last reading of a sensor |
| Hal.AbsentSensor | rust-edge/src/control/mod.rs:56-59 | and with nothing iff no reading names it |
| Simulator.RackState.constructor | rust-edge/src/hal/simulator.rs:68-90 | the constants of a new rack |
| Simulator.RackState.ApplyCommand | rust-edge/src/hal/simulator.rs:137-148 | one actuator moves, clamped |
| Simulator.RackState.Step | rust-edge/src/hal/simulator.rs:151-179 | one Euler step of temperature, current and charge |
| Simulator.SimulatorHal.constructor | rust-edge/src/hal/simulator.rs:206-211 | at least one rack, each with its own number |
| Simulator.SimulatorHal.Tick | rust-edge/src/hal/simulator.rs:214-221 | every rack advances by the same clamped step, and the clock with them |
| Simulator.SimulatorHal.Read | rust-edge/src/hal/simulator.rs:236-244 | one sensor of the first rack of that name, or the error |
| Simulator.SimulatorHal.ReadAll | rust-edge/src/hal/simulator.rs:246-258 | all sensors of the first rack of that name, or an error |
| Simulator.SimulatorHal.Send | rust-edge/src/hal/simulator.rs:260-269 | the first rack of that name obeys; all others are untouched; an unknown name is an error |
| Simulator.RackFoundAtItsIndex | rust-edge/src/hal/simulator.rs:68-70 | rack names are distinct, so each rack is found at its index |
| Simulator.ApplyOrder | rust-edge/src/hal/simulator.rs:137-148 | of two commands the later one for an actuator wins; commands for different actuators may come in either order |
| Simulator.TickBalances | rust-edge/src/hal/simulator.rs:151-179 | current and voltage carry the load; on the grid the battery gains two percent a second until full, off it it drains by the permitted share of the load until empty |
| Simulator.TickRelaxes | rust-edge/src/hal/simulator.rs:151-165 | a tick is one Euler step towards the temperature at which heat in equals heat out, and rests there |
| Simulator.UncooledTick | rust-edge/src/hal/simulator.rs:151-165 | uncooled, a standard rack warms by 0.2 degrees a second, a fifth of that with its outlet off |
| Simulator.SnapshotShows | rust-edge/src/hal/simulator.rs:98-134 | a snapshot of a rack answers each channel with that channel's value, and no other |
| Simulator.SnapshotTells | rust-edge/src/hal/simulator.rs:98-134 | which quantity of the rack each channel of its snapshot tells |
| Simulator.ReadingsAreStamped | rust-edge/src/hal/simulator.rs:246-259 | each reading names its rack and channel and bears the time of reading |
| Simulator.CommandShows | rust-edge/src/hal/simulator.rs:137-147 | a command shows on the channel of its own actuator, held between 0 and 100 %, and on no other |
| Simulator.NewRackShows | rust-edge/src/hal/simulator.rs:68-91 | the channels of a new rack |
| Pid.IntegralBounded | rust-edge/src/control/pid.rs:54-72 | over every run the integral stays within its limit and the output within range |
| Pid.HotterAsksMore | rust-edge/src/control/pid.rs:54-72 | with non-negative gains, from the same past a hotter measurement never asks for less |
| Pid.IntegralIsSum | rust-edge/src/control/pid.rs:54-72 | as long as it never meets its limit the integral is the error summed over time |
| Pid.ControlLaw | rust-edge/src/control/pid.rs:55-73 | while the integral meets no limit, the answer to the last sample is the clamp of kp times its error, ki times all the error so far, kd times the error's rate of change |
| Pid.IntegralIsBounded | rust-edge/src/control/pid.rs:59-62 | at its limits the integral is the sum held to them |
| Pid.ErrorIsLast | rust-edge/src/control/pid.rs:69-69 | the remembered error is that of the last sample |
| Pid.PastFades | rust-edge/src/control/pid.rs:54-72 | two controllers with different pasts, fed the same samples, never drift apart |
| Pid.ColdPins | rust-edge/src/control/pid.rs:54-72 | long enough below the setpoint, the integral is at its lower limit whatever came before |
| Pid.PidController.constructor | rust-edge/src/control/pid.rs:33-46 | gains, setpoint and range as given; the integral limit is the span of the range and at least 1; no memory |
| Pid.PidController.Reset | rust-edge/src/control/pid.rs:48-51 | forgets integral and last error |
| Pid.PidController.Step | rust-edge/src/control/pid.rs:54-72 | one update of the controller, whose law `ControlLaw` states |
| Agents.CompositeModest | rust-edge/src/control/agents.rs:55-73 | no composition of the agents turns an outlet on or leaves 0-100 %, in any state it reaches |
| Agents.DecideModest | rust-edge/src/control/agents.rs:110-250 | nor does any one of them |
| Agents.PduShedsExactlyOnFault | rust-edge/src/control/agents.rs:166-198 | the PDU law sheds exactly on a fault it can see |
| Agents.HotterCoolsMore | rust-edge/src/control/agents.rs:110-136 | from the same state a hotter rack never gets a smaller valve opening or fan speed |
| Agents.FanFollowsValve | rust-edge/src/control/agents.rs:110-136 | the fan gets exactly its share of the valve's demand; without a temperature the valve is held at 50 % and nothing is remembered |
| Agents.CoolingRemembers | rust-edge/src/control/agents.rs:110-136 | over any snapshots the cooling law is its controller fed with each temperature and the time since the one before, held between 0.05 and 60 s, 1 s where there is none; snapshots without a temperature leave no trace |
| Agents.DecideAllSplits | rust-edge/src/control/agents.rs:55-74 | an agent's decision does not depend on the others; commands come in the agents' order |
| Agents.FullerIsConservedIff | rust-edge/src/control/agents.rs:232-250 | the three discharge limits by state of charge; a fuller battery may never discharge faster iff the cap for a full one is at most 80 % |
| Agents.CoolingAgent.constructor | rust-edge/src/control/agents.rs:95-102 | a fresh controller over 0-100 %, the fan share clamped |
| Agents.CoolingAgent.DecideCommands | rust-edge/src/control/agents.rs:110-136 | one decision: new controller state, time stamp, and the two commands |
| Agents.CompositeAgent.DecideCommands | rust-edge/src/control/agents.rs:55-73 | each agent decides in turn, and the commands are joined in order |
| Topology.RunKeepsCoherent | go-telemetry/internal/topology/graph.go:30-93 | after any mix of upserts, loads and discovery, also ones that failed midway, each edge occurs as often under its source as under its target, and both endpoints exist |
| Topology.EffectKeepsCoherent | go-telemetry/internal/topology/graph.go:30-93 | each single operation keeps that |
| Topology.UpsertNodeExact | go-telemetry/internal/topology/graph.go:30-43 | a node is accepted iff it has id and kind; it then answers to its id, and every other node and all edges stay |
| Topology.UpsertEdgeExact | go-telemetry/internal/topology/graph.go:46-66 | an edge is accepted iff it has a kind and two known ends; the graph then holds it once more, and everything else as before; a refused one changes nothing |
| Topology.LoadResult | go-telemetry/internal/topology/graph.go:69-93 | a load links exactly the edges before the first that names an unknown node, and succeeds iff there is none |
| Topology.LastNodeWins | go-telemetry/internal/topology/graph.go:77-81 | of several nodes with one id the last stays |
| Topology.DiscoverExact | go-telemetry/internal/topology/author.go:57-73 | discovery adds exactly the devices the rows name and changes no node and no edge that was there |
| Topology.DiscoverFirst | go-telemetry/internal/topology/author.go:57-86 | a discovered node is made by the first row that names it, its kind mapped |
| Topology.KindsKept | go-telemetry/internal/topology/author.go:77-86 | the kinds of the graph keep their names, any other device is a sensor |
| Topology.DiscoveryAnswers | go-telemetry/internal/topology/author.go:49-56 | a discovery fails iff the query did or had fewer than two columns, and then changes nothing |
| Walks.WithinIsPaths | go-telemetry/internal/topology/graph.go:199-233 | being within d hops is having a path of at most d edges |
| Walks.WithinDual | go-telemetry/internal/topology/graph.go:191-197 | upstream within d hops of each other one way is downstream the other way |
| Walks.ChainsDual | go-telemetry/internal/topology/graph.go:170-177 | y is in the upward chain of x iff x is in the downward chain of y |
| Walks.EdgeAddsOneHop | go-telemetry/internal/topology/graph.go:46-66 | a new edge adds its far end to the hops of its near end, for its own kind, and changes no other hop |
| Walks.EdgeKeepsReach | go-telemetry/internal/topology/graph.go:46-66 | adding an edge never loses a reachable node nor moves it farther |
| Walks.DiscoveryKeepsChains | go-telemetry/internal/topology/author.go:44-48 | discovery changes neither the reachable nodes nor their distances, so it keeps every nearest-first listing of them |
| WalkOrder.DiscoveryKeepsAnswers | go-telemetry/internal/topology/author.go:44-48 | discovery changes no answer to a chain query, its order included |
| SpecForm.LoadRestores | go-telemetry/internal/topology/graph.go:69-140 | loading what a graph lists restores its nodes and every edge with its multiplicity in both indexes |
| SpecForm.LoadRestoresReach | go-telemetry/internal/topology/graph.go:69-140 | and every set of reachable nodes, at every distance |
| SpecForm.SpecIsStable | go-telemetry/internal/topology/graph.go:107-140 | two specs of one graph have the same nodes, and the same edges up to the labels of parallel ones |
| SpecForm.SpecIsUniqueIff | go-telemetry/internal/topology/author.go:32-42 | a graph has one spec, hence stable diffs, iff no two of its edges agree in ends and kind and differ in labels |
| SpecForm.SpecOrder | go-telemetry/internal/topology/graph.go:107-140 | nodes by id; edges by source, then target, then kind, in byte order |
| Ordering.LessIff | go-telemetry/internal/topology/graph.go:131-138 | byte order: the first place where two texts differ decides, a text comes before its extensions |
| GraphObject.Graph.constructor | go-telemetry/internal/topology/graph.go:21-27 | a new graph is empty |
| GraphObject.Graph.UpsertNode | go-telemetry/internal/topology/graph.go:30-43 | the new contents, or the refusal |
| GraphObject.Graph.UpsertEdge | go-telemetry/internal/topology/graph.go:46-66 | the new contents, or the refusal, in the order the checks are made |
| GraphObject.Graph.Load | go-telemetry/internal/topology/graph.go:69-93 | the contents a spec leads to, however the load ends |
| GraphObject.Graph.DiscoverFromTelemetry | go-telemetry/internal/topology/author.go:49-75 | the contents a telemetry answer leads to |
| GraphObject.Graph.Nodes | go-telemetry/internal/topology/graph.go:107-116 | every node once, by id |
| GraphObject.Graph.EdgesSorted | go-telemetry/internal/topology/graph.go:123-140 | every edge as often as the graph holds it, in order |
| GraphObject.Graph.ToSpec | go-telemetry/internal/topology/graph.go:119-121 | a spec of the graph |
| GraphObject.Graph.Expand | go-telemetry/internal/topology/graph.go:210-230 | the unseen neighbours along one kind of edge, each once, in the order the edges first name them |
| GraphObject.Graph.Bfs | go-telemetry/internal/topology/graph.go:201-233 | terminates with exactly the nodes reachable along edges of one kind other than the start, each once, in non-decreasing hop distance, in the order the queue takes from the order of the edges |
| GraphObject.Graph.PowersChain | go-telemetry/internal/topology/graph.go:167-172 | that, upstream along power edges; each node before those one hop beyond it, where every hop leads strictly farther |
| GraphObject.Graph.CoolingChain | go-telemetry/internal/topology/graph.go:175-177 | that, downstream along cooling edges |
| GraphObject.TopologicalIff | go-telemetry/internal/topology/graph.go:167-172 | over all orders the same edges may have been inserted in, the walk answers each node before those one hop beyond it iff every hop between reached nodes other than the start leads strictly farther from it |
| GraphObject.TopologicalOrderFails | go-telemetry/internal/topology/graph.go:167-172 | one set of three cables, in two orders: the walk answers in no topological order for the one and in topological order for the other |
| GraphObject.AnswersOutOfOrder | go-telemetry/internal/topology/graph.go:167-172 | that graph, built by its own updates in either order, and the answer each gives |
| GraphObject.ChainExists | go-telemetry/internal/topology/graph.go:201-233 | every chain query has exactly one answer |
| Walks.LayeredIsTopological | go-telemetry/internal/topology/graph.go:167-172 | where every hop leads farther, nearest first is topological |
| WalkOrder.SomeOrderFails | go-telemetry/internal/topology/graph.go:201-233 | any hop that leads no farther makes the walk answer out of order, for some order of the same edges |
| WalkOrder.PathHeads | go-telemetry/internal/topology/graph.go:210-230 | if the first edge at every node of a shortest path leads along it, each node of the path is the first of its level to be queued |
| ControlStore.ReplayGivesState | api/internal/control/state.go:138-289 | over every operation sequence, replaying the whole log over the seeded state gives each device's actuators, mode, latch and signature; a device never seeded is unknown and unlogged |
| ControlStore.LogIsWindow | api/internal/control/state.go:306-314 | the retained log is exactly the last thousand entries ever made, numbered consecutively |
| ControlStore.AuditOrder | api/internal/control/state.go:291-304 | after any operations and for any limit the answer is oldest first, and newest first iff it has at most one entry |
| ControlStore.AuditIsNotNewestFirst | api/internal/control/state.go:291-304 | two resets whose answer shows the older one first |
| ControlStore.RefusedChangesNothing | api/internal/control/state.go:180-246 | which calls are refused and why; a refused call changes neither state nor log; an accepted one touches one device, logs one entry and replies with the device's new state |
| ControlStore.EveryStateSafe | api/internal/control/state.go:138-289 | in every reachable state, NaN and infinite requests included, every actuator lies in its envelope, and a latched device is held at full cooling in safe mode |
| ControlStore.OverrideIsHonest | api/internal/control/state.go:191-236 | an override sets its own channel to the request or the bound it passed, logs that value and marks it clamped iff the request was outside; other channels stay; the state is signed |
| ControlStore.OutletIsHonest | api/internal/control/state.go:219-229 | an outlet override switches the outlet, says so in the log, leaves the channels alone and signs the state |
| ControlStore.ResetAndLatch | api/internal/control/state.go:239-289 | a reset hands back control, clears the latch and moves nothing; a latch opens valve and fan fully and moves nothing else |
| ControlStore.EntryTells | api/internal/control/state.go:225-314 | the entry of an accepted operation: who did what to which device and why, what was asked for and what came of it |
| ControlStore.SeedsOnce | api/internal/control/state.go:138-153 | a seed installs an unknown device, leaves a known one alone and is not logged |
| ControlStore.SeedIsHonest | api/internal/control/state.go:138-153 | a seed starts each channel at its clamped request, in auto, not latched |
| Commands.OnIff | api/internal/control/state.go:347-361 | what counts as on: true, a float64 other than zero, the texts true, 1 and on |
| Commands.LtOrders | api/internal/control/state.go:316-327 | comparison as float64 compares, NaN and infinities included |
| ControlStore.Clamp | api/internal/control/state.go:316-327 | the result lies in the band, is the request if that does, and the lower limit for NaN |
| ControlStore.Store.constructor | api/internal/control/state.go:126-135 | all-zero limits stand for the defaults |
| ControlStore.Store.InstallSeed | api/internal/control/state.go:138-153 | a known device is left alone, a new one starts clamped in auto |
| ControlStore.Store.ApplyOverride | api/internal/control/state.go:180-236 | the new store and the reply |
| ControlStore.Store.ResetDevice | api/internal/control/state.go:239-261 | the new store and the reply |
| ControlStore.Store.Latch | api/internal/control/state.go:265-289 | the new store and the reply |
| ControlStore.Store.Record | api/internal/control/state.go:306-314 | numbers the entry, appends it, drops the oldest beyond the cap |
| ControlStore.Store.Audit | api/internal/control/state.go:293-304 | the most recent entries, oldest first |
| AuditLog.KeepIsWindow | api/internal/orchestration/orchestrator.go:252-255 | appending and trimming a window of the log gives the window of the longer log |
| AuditLog.KeepsAThousand | api/internal/orchestration/orchestrator.go:252-255 | a thousand entries stay, the newest among them |
| AuditLog.Query | api/internal/orchestration/orchestrator.go:217-228 | the last min(limit, length) entries, all of them for a limit that is not positive |
| AuditLog.IdInjective | api/internal/control/state.go:363-365 | no two sequence numbers share an id |
| AuditLog.QueryOrder | api/internal/orchestration/orchestrator.go:216-228 | a query of the trimmed log answers oldest first, and newest first iff it answers at most one entry |
| Orchestration.ForwardIff | api/internal/orchestration/orchestrator.go:153-198 | exactly which intents reach the sink |
| Orchestration.RefusalTells | api/internal/orchestration/orchestrator.go:153-198 | why an intent is refused, the first reason that applies, and which value is then recorded |
| Orchestration.NumericIff | api/internal/orchestration/orchestrator.go:258-290 | what counts as a number |
| Orchestration.ForwardedInEnvelope | api/internal/orchestration/orchestrator.go:131-150 | a forwarded number is in the envelope iff the request was a number; marked clamped iff it moved, and moved to the nearest bound |
| Orchestration.NaNIsForwarded | api/internal/orchestration/orchestrator.go:143-149 | NaN passes every check and reaches the sink |
| Orchestration.FanRuleIff | api/internal/orchestration/orchestrator.go:187-193 | the two-person rule is right about the fan iff valve and fan limits coincide, or, for a fan band of at most 0.002, iff no fan setting lies inside the valve band |
| Orchestration.FanDecisionIff | api/internal/orchestration/orchestrator.go:187-193 | under the rule, an operator's fan settings are refused exactly at the fan's own limits iff that condition on the limits holds |
| Orchestration.FanRuleMisfires | api/internal/orchestration/orchestrator.go:187-193 | a fan band of 0 to 80 under a valve band of 0 to 100: an operator's 80 is forwarded |
| Orchestration.Attempted | api/internal/orchestration/orchestrator.go:200-206 | an entry is accepted iff the intent was forwarded and delivered; its requested value is its applied one |
| Orchestration.EntryTells | api/internal/orchestration/orchestrator.go:200-251 | the entry's operator, source, applied value, clamp mark and reason |
| Orchestration.SequentialRun | api/internal/orchestration/orchestrator.go:153-256 | submits in sequence leave one entry each, the log keeps the last thousand, and the simulator is the fold of the accepted ones |
| Orchestration.AuditOrder | api/internal/orchestration/orchestrator.go:216-228 | after any submits and for any limit the answer is oldest first, and newest first iff it has at most one entry |
| Orchestration.AuditIsNotNewestFirst | api/internal/orchestration/orchestrator.go:216-228 | for any two submits the answer shows the older one first |
| Orchestration.RecordsRequestIff | api/internal/orchestration/orchestrator.go:165-184 | an entry records the requested value iff the intent was refused before its value was replaced, or the value was a boolean, or a number in the band or NaN, already |
| Orchestration.RequestIsLost | api/internal/orchestration/orchestrator.go:173-176 | a request for 150 is recorded as one for 100 |
| Orchestration.SinkInEnvelope | api/internal/orchestration/server.go:30-51 | without NaN requests every simulated channel is in its band or was never set |
| Orchestration.SimSink.ApplyCommand | api/internal/orchestration/server.go:30-51 | one channel of one device is set, the device made if it was unknown |
| Orchestration.Orchestrator.constructor | api/internal/orchestration/orchestrator.go:104-109 | an all-zero policy stands for the default one |
| Orchestration.Orchestrator.Record | api/internal/orchestration/orchestrator.go:235-256 | numbers the entry, appends it, drops the oldest beyond the cap |
| Orchestration.Orchestrator.RejectRequest | api/internal/orchestration/orchestrator.go:230-233 | a rejection is logged with the value as it stood |
| Orchestration.Orchestrator.Submit | api/internal/orchestration/orchestrator.go:153-207 | log, sink and answer after one submit, refusals and sink errors with their cause |
| Orchestration.Orchestrator.Audit | api/internal/orchestration/orchestrator.go:217-228 | the most recent entries, oldest first |
| ConcurrentSubmits.RunBalances | api/internal/orchestration/orchestrator.go:200-256 | in every interleaving: what the sink took is, as a bag, what all entries ever recorded accept plus what is about to be recorded; each finished submit recorded exactly its own entry, in number order; the audit is the last thousand of them |
| ConcurrentSubmits.AfterAll | api/internal/orchestration/orchestrator.go:153-256 | once all have returned, one entry per submit was recorded and the accepted ones are what the sink took; the audit keeps the last thousand, and accounts for the sink iff no accepted entry was dropped |
| ConcurrentSubmits.WindowTells | api/internal/orchestration/orchestrator.go:252-255 | at every moment the audit tells of a channel what everything recorded tells if it mentions the channel, and otherwise the value of a channel never set |
| SubmitRaces.RaceFreeLogExplains | api/internal/orchestration/server.go:30-51 | if no two commands for one channel overlap, each channel always shows its one unrecorded command or what everything recorded so far says |
| SubmitRaces.RaceFreeAuditTellsIff | api/internal/orchestration/orchestrator.go:200-256 | for such a schedule, once nothing waits to be recorded for a channel, the thousand entries kept tell what it shows iff they mention it or it shows the value of a channel never set |
| SubmitRaces.RaceFreeLogIsFaithful | api/internal/orchestration/orchestrator.go:200-256 | and in the end, for such a schedule, what everything recorded says, and what the audit says under that same condition |
| LogFidelity.LogIsFaithfulIff | api/internal/orchestration/orchestrator.go:200-256 | in every interleaving of given submits the finished audit of at most a thousand entries tells what a channel shows iff their accepted commands for it all carry one value, and fewer than a thousand of the submits leave other entries or that value is the one of a channel never set |
| AgreeingSubmits.FaithfulAuditTells | api/internal/orchestration/orchestrator.go:200-256 | the one half: under that condition the finished audit tells what the channel shows, in every interleaving |
| LogFidelity.DifferentValuesMislead | api/internal/orchestration/orchestrator.go:200-256 | for any two accepted commands with different values for one channel, among any submits, an interleaving that ends with the sink showing the one and the audit telling the other |
| LogFidelity.AuditForgets | api/internal/orchestration/orchestrator.go:252-255 | if a thousand or more of the submits leave other entries, an interleaving after which the channel shows the commanded value and the audit tells the value of a channel never set |
| LogFidelity.ThousandOthers | api/internal/orchestration/orchestrator.go:252-255 | one valve set to 50 and a thousand commands to another device: the audit says 0 |
| ConcurrentSubmits.OverlapCanMislead | api/internal/orchestration/orchestrator.go:200-205 | two overlapping submits after which the sink shows one value and the audit another |
| Point.MarshalBinary | go-telemetry/internal/point/point.go:117-142 | the frame of the sample, or an error iff a required field is empty |
| Point.FrameBytes | go-telemetry/internal/point/point.go:107-149 | byte for byte: TPTD and version 1; device, sensor, metric, unit each behind its length, high byte first; value bits and time stamp, most significant byte first, in two's complement |
| Point.PutLenPrefixed | go-telemetry/internal/point/point.go:144-149 | a field behind its length, cut to sixteen bits |
| Point.UnmarshalBinary | go-telemetry/internal/point/point.go:152-204 | the cursor reads what the decoder specification says |
| Point.DecodeIff | go-telemetry/internal/point/point.go:152-204 | decoding gives p exactly when the input begins with the frame of p and no length of p was cut |
| Point.RoundTripIffFits | go-telemetry/internal/point/point.go:117-204 | a sample survives the wire, whatever follows, iff every field is below 65536 bytes |
| Point.AcceptsExactlyFrames | go-telemetry/internal/point/point.go:152-204 | the accepted inputs are exactly the extensions of frames |
| Point.PrefixFree | go-telemetry/internal/point/point.go:117-204 | a stream determines its first frame and what follows |
| Point.TruncationRejected | go-telemetry/internal/point/point.go:152-204 | every strict prefix of a frame is rejected |
| Point.TruncationTells | go-telemetry/internal/point/point.go:152-204 | the decoder's error tells in which part a frame was cut |
| Point.HeaderErrors | go-telemetry/internal/point/point.go:154-162 | exactly when an input is too short, has no magic, or another version |
| LineProtocol.EscapeIsOnePass | go-telemetry/internal/writer/writer.go:129-134 | the three replacing passes equal one per-character pass |
| LineProtocol.UnescapeInverts | go-telemetry/internal/writer/writer.go:129-134 | reading an escaped text gives the text back |
| LineProtocol.FieldRoundTripIff | go-telemetry/internal/writer/writer.go:123-134 | before a separator a tag reads back iff it does not end in a backslash |
| LineProtocol.LineRoundTripIff | go-telemetry/internal/writer/writer.go:118-126 | a line reads back table, tags, value text and time stamp iff no tag ends in a backslash |
| LineProtocol.StampReads | go-telemetry/internal/writer/writer.go:113-121 | a line bears the sample's own stamp, or the clock's where that is not after the epoch |
| LineProtocol.LineShows | go-telemetry/internal/writer/writer.go:118-121 | the text of a line, label by label, escapes included |
| LineProtocol.BatchSplitsIff | go-telemetry/internal/writer/writer.go:77-86 | a batch falls into exactly one line per point, that point's line, iff no tag contains a newline |
| LineProtocol.LogSplits | go-telemetry/internal/writer/writer.go:156-166 | the development writer's text falls into one line per sample, each with its own stamp, whatever that is |
| LineProtocol.QuestDb.constructor | go-telemetry/internal/writer/writer.go:55-71 | the default table |
| LineProtocol.QuestDb.WriteBatch | go-telemetry/internal/writer/writer.go:77-104 | when it succeeds, what is then on the wire, and whether the connection survives |
| LineProtocol.Log.constructor | go-telemetry/internal/writer/writer.go:145-150 | the default table |
| LineProtocol.Log.WriteBatch | go-telemetry/internal/writer/writer.go:156-166 | the lines of the batch are appended, with no clock for a missing stamp |
| LineProtocol.WritersAgree | go-telemetry/internal/writer/writer.go:118-166 | on samples stamped after the epoch both writers emit the same text |
| Decimal.ParseFormat | go-telemetry/internal/writer/writer.go:123-125 | a printed number reads back |
| Guardrails.EnvelopeIff | ai-brain/src/safety.rs:101-164 | every action of every run lies in the envelope, whatever the inner policy, iff the safe action does |
| Guardrails.EmergencyForcesMax | ai-brain/src/safety.rs:101-109 | in an emergency the answer is full cooling whatever was proposed and remembered; only an override stands above it |
| Guardrails.FirstDecision | ai-brain/src/safety.rs:111-133 | with nothing remembered the answer is the proposal, each channel moved to the nearest bound where it lies outside the envelope |
| Guardrails.FirstDecisionAnyLimits | ai-brain/src/safety.rs:111-164 | the same for limits beyond the unit range: what is remembered and what is emitted |
| Guardrails.NextDecision | ai-brain/src/safety.rs:119-133 | with an action remembered each channel moves straight towards the nearest point of the envelope, all the way or by its limit |
| Guardrails.RateLimited | ai-brain/src/safety.rs:119-130 | no action that is neither override nor emergency is farther than the limits from the one before it |
| Guardrails.ReachesTarget | ai-brain/src/safety.rs:119-130 | under a constant proposal the distance falls by the limit per step, so the target is reached at the first n with n * delta at least the distance, and kept |
| Guardrails.ConstantProposal | ai-brain/src/safety.rs:155-164 | a run of free decisions on one proposal moves each channel that way |
| Guardrails.FreeRun | ai-brain/src/safety.rs:155-164 | a run of free decisions on one proposal, from whatever is remembered, nothing included |
| Guardrails.LastIsOutput | ai-brain/src/safety.rs:155-164 | what is remembered is what was last emitted |
| Guardrails.GuardedPolicy.constructor | ai-brain/src/safety.rs:77-85 | nothing remembered, not overridden |
| Guardrails.GuardedPolicy.SetOverride | ai-brain/src/safety.rs:88-90 | only the override changes |
| Guardrails.GuardedPolicy.ApplyGuard | ai-brain/src/safety.rs:101-133 | the guarded action, which `FirstDecision`, `NextDecision` and `EmergencyForcesMax` determine |
| Guardrails.GuardedPolicy.DecideOnly | ai-brain/src/safety.rs:137-145 | the read-only decision is the one decide_mut would make |
| Guardrails.GuardedPolicy.DecideMut | ai-brain/src/safety.rs:155-164 | the action, and what is remembered |
| Returns.DiscountedReturns | ai-brain/src/rl.rs:224-230 | the backward pass leaves in cell t the sum over i of gamma^i times the reward i steps later |
| Returns.DiscountedHead | ai-brain/src/rl.rs:228-228 | that sum is the first reward plus gamma times the sum of the rest |
| Returns.HorizonFreeBound | ai-brain/src/rl.rs:224-230 | with rewards between -B and 0 no return falls below -B / (1 - gamma), whatever the horizon |
| Returns.ReturnsBounded | ai-brain/src/train.rs:101-110 | against the mock world B is (80 - setpoint)^2 + 0.1 for a setpoint up to 80, for any clamped actions |
| Returns.CostBound | ai-brain/src/model.rs:282-290 | the cost of a step lies between 0 and that B |
| Returns.CostIsTight | ai-brain/src/model.rs:282-290 | that B is met |
| Returns.FreeIff | ai-brain/src/model.rs:282-290 | only a rack at or below its setpoint that is left alone costs nothing |
| Returns.CostParts | ai-brain/src/model.rs:282-290 | full valve effort costs 0.06, full fan effort 0.04; the excess over the setpoint costs its square |
| Returns.StepRelaxes | ai-brain/src/train.rs:101-110 | above the coolant temperature a step contracts the distance to the balance of load, coolant and ambient |
| Returns.MockSteps | ai-brain/src/train.rs:101-110 | what one step with valve, fan or nothing open makes of 40 degrees |
| Returns.MoreCoolingNeverHotter | ai-brain/src/train.rs:101-110 | over whole rollouts at steps up to 24 s, cooling at least as much at every step, from a start no hotter under no more load, never ends hotter |
| Returns.GuardSeesTemperature | ai-brain/src/train.rs:112-115 | through the normalized observation the guard calls an emergency exactly at or above the emergency temperature |
| Returns.ObservationTells | ai-brain/src/train.rs:112-123 | temperature, ambient, coolant and load can be read back from the observation |
| Returns.RolloutReturns | ai-brain/src/rl.rs:202-230 | a whole rollout on any sampled actions: world, rewards, returns and their bound |
| Returns.RewardsAt | ai-brain/src/rl.rs:202-222 | each step is paid for at the temperature it leads to |
| Returns.MockWorld.constructor | ai-brain/src/train.rs:90-97 | ambient 22 |
| Returns.MockWorld.Step | ai-brain/src/train.rs:101-110 | the next temperature, between 0 and 80 |
| Returns.RunEpisode | ai-brain/src/train.rs:65-74 | an episode's cost is the negated undiscounted return of the actions its policy chose |
| Returns.ChosenAt | ai-brain/src/train.rs:65-74 | each action of an episode is what the policy answers to the world as it then stands |

## Left out

- Rounding, overflow of 64-bit counters and sequence numbers, NaN and infinities outside the command services: float64 and float32 are the reals.
- Clocks: timers and tickers are nondeterministic steps, time stamps and UpdatedAt fields are parameters or absent; one clock value stands in for all missing stamps of a batch.
- Log texts, notes, per-source and poll-error counters, units and metric tags of readings: they decide nothing.
- HTTP servers, authentication, process wiring, dashboards, protobuf code, Redfish, IPMI and Modbus clients, QuestDB queries, neural networks and training, firmware signatures: not part of this model.
- Drain's waiting and wake-up: only its take-all step; that a waiting Drain is always woken is not claimed.
- Delivery and sink failures enter as parameters: a fault met by a read, a sink that breaks, a network that drops a batch; a read fault stands for any transport error, the simulator itself only fails for unknown racks.
- Dispatch through the source's agent and policy interfaces: a composite holds agents as values of one datatype, and supervisors and guards take arbitrary functions.
- Numeric parsing of texts and JSON literals: what the parser finds is part of the request value.
- SimSink's constant fields (mode, latch, operator) and the stored copies' independence from the caller's.
- Node and edge labels: a missing label map is an empty one.
- sort.Slice: an insertion sort stands in for it; the specs are claimed up to the order of edges with equal ends and kind.
- Interleavings of graph operations, and of a discovery with other writers: each operation is atomic, while the source releases its lock between a discovery's rows and between the two halves of Spec.
- Cools, Feeds, Successors and Predecessors: filters of one index.
- HeuristicController, random search and hotspot labels.
