# Verified model of the GW-01 battery plant emulator

This project models the deterministic core of a battery storage plant emulator and
proves what its parts promise each other:

- **The tick kernel.** One simulated second takes the state tree through the plant
  controller, the even allocation over dispatchable blocks, every block (BMS, racks,
  containers, converter), the auxiliaries, the substation and its meters, and the alarm
  words. Between ticks a single door trips, isolates, resets and starts the staggered
  return, leaving its events pending in the tree.
- **The HVAC controller**, staged cooling behind one hold timer.
- **The MQTT store-and-forward outbox** and the change-only publisher over it, against a
  broker that may forget and a client that may refuse.
- **The calendar**, in its three copies, and the start stamp a scenario may use.
- **The day-ahead planner** over any table of local days.
- **The scenario engine**: target paths, file order, the schedule, the player, resuming.

Numbers are mathematical reals and integers. The square root of the cell and converter
models is a parameter that is assumed to be one (`Reals.IsSqrt`). The numbers of blocks,
containers and racks are arbitrary, and so are the weather, the dispatch plan, the
commands, the client and the broker.

The tree is one value, as the source owns it: a step in place on a part of it is a method
that takes the part and gives it back changed. `Simulations.Simulation`, `Devices.Outbox`,
`Devices.Publisher` and `Players.Player` are the objects that run, with the source's
fields, loops and buffers; each of their methods is proved to be a function of the value
it works on (`Kernel.Tick`, `Commands.Dispatch`, `Outboxes.Send`, ...), and the laws are
proved of those functions, over every run.

The run laws assume of the models what `TickLaws.Sound` says (a square root that is one,
no negative resistance or bleed current, a relaxation time of at least one tick, a loss
curve on its rising branch up to the rating) and of the tree a run starts from what
`SiteLaws.Inv` says (racks in range with a positive EMF, words laid out, trip and breaker
in step). `Gw01` proves both of the reference site and of every new tree. The laws of the
loss meters assume a little more, which the reference site meets too: a polarization
branch slower than the tick (`LossLaws.LossSound`), no negative standing power
(`LossLaws.MetersSound`). The laws of the controller and of balancing name the order of the
bands they need (`Thermal.BandsOrdered`, `CoolingLaws.StartsAbove`, `dvStopV` below
`dvStartV`); `Gw01.BandsAreOrdered` gives it for the reference site.

The main results, each over every run or every input:

- energy: `RunLaws.RunLedger`, `RunLaws.RunResidual`, `LossLaws.RunLossBound`,
  `InventoryLaws.MetersRead`, `SafetyLaws.RunFiscal`;
- power: `SetpointLaws.EveryTickFollows`, `SetpointLaws.PlannedTick`,
  `RunLaws.EveryTickTracks`, `TrackingLaws.EveryTickDelivers`, `TrackingLaws.EveryTickPowers`;
- safety and the return: `SafetyLaws.TripHolds`, `LatchLaws.FaultHolds`,
  `LatchLaws.LatchHolds`, `ReraiseLaws.StillReraises`, `ReturnLaws.ReturnSchedule`;
- what commands set: `FlagLaws.RackFlagsHold`, `FlagLaws.BlockModeHolds`,
  `FlagLaws.FailureHolds`, `CommandLaws.ApplyHonest`;
- the log: `RunLaws.LogComplete`, `EventOrderLaws.TickOrder`;
- the container controller: `HvacRuns.RunNoEarlyRestart`, `HvacRuns.RunStartsBounded`,
  `HvacRuns.RunHeats`, `HvacRuns.RunCools`, `HvacRuns.RunCoolingEnds`;
- balancing: `BleedLaws.BleedingHolds`, `IsolationLaws.IsolatedRests`;
- the device: `Outboxes.NothingLostSilently`, `ReplayLaws.DropoutReplayed`,
  `RetainedLaws.RetainedWordsAgree`, `DeliveryLaws.EventsAccounted`, `CadenceLaws.DueExactly`;
- scenarios: `ScenarioRuns.PlayIsRun`, `Players.ResumeIsUninterrupted`;
- the planner and the calendar: `Planners.TargetMeans`, `Planners.SameChargeEveryDay`,
  `Calendars.DaysRoundTrip`, `Calendars.ClockRoundTrip`, `Starts.AcceptsExactlyRealInstants`,
  `Targets.CanonicalPaths`.

How the files build on each other:

| files | what they hold |
|---|---|
| Reals, Wrappers, State, Words | arithmetic, the tree, alarm words as bit sets and as machine words |
| Ocv, Derate, Cell, Bms, Converter, Thermal, Substation | the layer models and their laws |
| HeatLaws | the sign of a rack's heat, and the energy of its polarization branch |
| Cooling | when a unit cools, holds and rests; what it draws; which way heat flows |
| Log, EventOrder | events, what replaying them gives back, and their order |
| Bands | a band bit over any trace |
| Plant, Kernel, Commands, Causes, Simulation | the tick and the door, as functions and as the running object |
| CommandLaws, TickLaws, SiteLaws | what one command and one tick keep and book |
| Runs, RunLaws, LossLaws, SafetyLaws, LatchLaws, ReturnLaws, HvacRuns | what every run keeps |
| Setpoint, Flags | what every run follows and sets: the setpoint, the flags of racks, blocks and units |
| Tracking, Inventory | delivery in full; what the counts, sums and meters of a tick stand for |
| Bleeding, Isolation | balancing over runs, and a rack left out of service |
| Reraise | which trips the tick after a reset raises again |
| Gw01, Gw01Heat, Gw01Reset | the reference site, its battery meter falling, a cleared trip that stays clear |
| Outbox, Publisher, Device | the MQTT device, as functions and as the running objects |
| Delivery, Cadence, Broker, Retained | what its histories deliver: events, cadence, retained words |
| Replays, Messages | dropouts and replays in closed form; what each message says |
| Calendar, Decimals, Start, Targets | dates and paths as text |
| Orders | what a sort of distinct keys can only be |
| Plan, Prices, Planner | the day-ahead strategy |
| Schedule, Player, ScenarioRuns | the scenario engine, and scenarios as runs |

Where the code and its comments disagree the model follows the code:

- `unix_from_civil` says an out-of-range month rolls into the next year. That holds up to
  month 14 (`Calendars.MonthRollover`).
- `EnergyAccounting` says all its counters are monotonic. The battery meter is not: rack
  heat is negative while the polarization branch gives energy back
  (`Gw01Heat.BatteryMeterFalls`), exactly when `HeatLaws.HeatSign` says, and by no more in
  all than the branches held (`LossLaws.RunLossBound`). The others are
  (`LossLaws.RunOthersRise`).
- Heating is said not to be gated by the compressor timer. No decision to heat reads it,
  yet heating does wait for a compressor the timer keeps running (`Gw01.HeatingCanWait`),
  exactly as long as `Thermal.HeatingComes` says.
- The day plan is said to have the same counts on every day. It has up to the length of
  the shortest day (`Planners.SameChargeEveryDay`, `Planners.SpringDayChargesLess`), and
  the hours that discharge also need a spread (`Plans.DischargesInFull`).
- The publisher says a lost event is counted. Only one refused to its face is
  (`DeliveryLaws.DroppedCounts`, `DeliveryLaws.LostEventUncounted`).
- The operator reset says the causes it hands back re-raise on the next tick. The list is
  computed on the tree as it is (`Causes.StillIsPresent`), and the next tick moves
  temperatures and spreads before it evaluates: a cause re-raises exactly when its condition
  will still hold then (`ReraiseLaws.StillReraises`), and one need not
  (`Gw01Reset.StillNeedNotReraise`).
- The outbox takes a stored message off its queue before the client has accepted it, so a
  refused replay is a loss (`RetainedLaws.RefusedReplayLosesWord`).
- A price year whose table is `[0]` over no hours is accepted and then has no hour to look
  up (`Prices.EmptyYearLoads`).

## Model

| member | source | states |
|---|---|---|
| Words.WithBitRefines | crates/bess-core/src/alarms.rs:116-123 | setting or clearing a bit of the 32-bit word is adding or removing its position from the set the model works with |
| Words.XorIsDifference | crates/bess-core/src/kernel/alarms.rs:22-27 | the exclusive-or of two words holds exactly the positions where they differ |
| Words.MaskIsClearTrips | crates/bess-core/src/kernel/alarms.rs:188 | the reset mask clears the latched half of a word and nothing else |
| Words.WithBitsKeeps | crates/bess-models/src/bms/alarms.rs:88-140 | a row of settings leaves every bit it does not name, and keeps a laid-out word laid out |
| Words.WithBitsSets | crates/bess-models/src/bms/alarms.rs:88-140 | after a row of settings of distinct bits each named bit reads what its setting says |
| BandLaws.RisingHolds | crates/bess-core/src/alarms.rs:97-113 | over any trace of values a band bit is up exactly when some value raised it, or it was up before, and every value since stayed above where it clears |
| BandLaws.FallingMirrors | crates/bess-core/src/alarms.rs:107-113 | a bit that raises as its value falls is the rising one of the negated value and band |
| Log.PushChanges | crates/bess-core/src/kernel/alarms.rs:21-44 | the loop appends one event per differing bit below 16, lowest first, as `WordChanges` says |
| Log.WordReplay | crates/bess-core/src/kernel/alarms.rs:21-44 | replaying the changes between two words over the old one gives the new one, no raise meeting a set bit and no clear a clear one |
| Log.DiffReplay | crates/bess-core/src/kernel/block.rs:148-171 | replaying everything one tick logs about two trees over the first gives the second, on every alarm word and converter state |
| EventOrderLaws.TickOrder | crates/bess-core/src/kernel/block.rs:148-180 | a tick hands out what was pending and then its own changes in tree order: block by block racks, converter, word, and the site word last, bits rising, each bit and converter at most once |
| Derate.New | crates/bess-models/src/bms/derate.rs:30-37 | the peak is the greatest listed rate, never below zero, and the stored span is the longest run of neighbours at it, if any |
| Derate.LongestFullRun | crates/bess-models/src/bms/derate.rs:80-94 | the loop finds the longest run of neighbouring points at the peak, the first of equals, and none exactly when there is none |
| Derate.RateScan | crates/bess-models/src/bms/derate.rs:60-74 | the scan returns the interpolated rate of the table, zero outside it |
| Derate.ShortcutIsScan | crates/bess-models/src/bms/derate.rs:48-58 | the full-rate shortcut equals the clamped plain scan for every strictly increasing table and every temperature |
| Ocv.OcvCell | crates/bess-models/src/cell.rs:62-75 | the loop is the piecewise-linear curve |
| Ocv.OcvIntegral | crates/bess-models/src/cell.rs:78-92 | the loop is the area under the curve |
| Ocv.OcvMonotone | crates/bess-models/src/cell.rs:62-75 | an increasing table gives a curve that never falls with charge and stays within the table |
| Ocv.Trapezoid | crates/bess-models/src/cell.rs:78-92 | inside one segment the integral between two charges is exactly the trapezoid of the curve there |
| Ocv.IntegralBounds | crates/bess-models/src/cell.rs:78-92 | between any two charges the integral lies between the lower and the upper voltage times the width |
| Ocv.OcvTableIsIncreasing | crates/bess-models/src/cell.rs:10-25 | the table of the reference cell starts at 0, ends at 1 and rises in both columns |
| Cell.StepRackInPlace | crates/bess-models/src/cell.rs:94-148 | the step, field after field, is the function the rack laws are about |
| Cell.SolvedDelivers | crates/bess-models/src/cell.rs:116-126 | the solved current, and any part of it the hard bounds leave, delivers something between nothing and the request |
| Cell.StepRackKeeps | crates/bess-models/src/cell.rs:94-148 | a rack stays in range, its polarization and EMF bounded; it delivers something between nothing and the request; its charge moves by exactly the charge drawn, so the clamp never bites; terminal power and heat add up to the chemical power |
| Cell.StepRackBooks | crates/bess-models/src/cell.rs:94-153 | stored energy falls by at most the chemical energy booked, and by no less than that minus capacity x cells x change of OCV x change of SoC |
| TrackingLaws.StepMeets | crates/bess-models/src/cell.rs:94-148 | a rack in service delivers exactly what it is asked for if and only if that is nothing, or a power past the numeric floor, within 99.9% of the most its terminals can give and no more than they give at the current its rating and charge leave: all of it readable before the step |
| TrackingLaws.StepGives | crates/bess-models/src/cell.rs:94-148 | the power of a step exactly, without solving for the current: the part of the request the terminals can give, none below the numeric floor, and no more, either way, than at the current that rating and charge leave |
| BleedLaws.TerminalsShow | crates/bess-models/src/cell.rs:101-146 | terminal voltage times current is the power delivered; at rest the terminals show the open-circuit voltage less what the branch holds |
| BleedLaws.BranchRelaxes | crates/bess-models/src/cell.rs:137-140 | the branch closes the share dt / tau of its way to the voltage of the current, whatever the current |
| HeatLaws.HeatSign | crates/bess-models/src/cell.rs:116-146 | the heat of a step is negative exactly when the request runs against the polarization branch, is not at rest, meets room, and is small against what the branch holds; so never over a branch at rest or with a request of its sign |
| HeatLaws.StepCoversBranch | crates/bess-models/src/cell.rs:137-146 | a step's heat covers what its polarization branch takes up, so the branch hands back no more than it held |
| Bms.BalanceInPlace | crates/bess-models/src/bms/balance.rs:79-122 | the step, field after field, is the function the spread laws are about |
| Bms.BalanceKeeps | crates/bess-models/src/bms/balance.rs:79-122 | the spread stays in [0, 1], balancing only lowers the charge and not past empty, and the energy reported bled is exactly what the rack lost |
| BleedLaws.BleedBooks | crates/bess-models/src/bms/balance.rs:105-122 | bleeding closes the spread by exactly the bleed current's charge, or all of it, and takes its share of that from the rack, or all there is; without it the charge stays; the spread in volts is read at the new charge, half either side |
| BleedLaws.SpreadInVolts | crates/bess-models/src/bms/balance.rs:119-121 | the spread in volts is never negative, and zero without a spread |
| BleedLaws.ThroughputIsCharge | crates/bess-models/src/bms/balance.rs:83-86 | what a step of the cells lets the next BMS step add to the spread is the charge that step moved, either way, by the growth per throughput |
| BleedLaws.SpreadGrows | crates/bess-models/src/bms/balance.rs:83-93 | from one tick to the next BMS step an unbled rack in service spreads by its throughput, its drift and its excess self-discharge, up to a whole charge |
| BleedLaws.BleedingHolds | crates/bess-models/src/bms/balance.rs:95-103 | on every run a rack bleeds exactly when at some tick service, charge and current allowed it and the spread was at least `dv_start_v`, and at every tick since they still did and it was above `dv_stop_v`; no command moves the flag |
| IsolationLaws.IsolatedRests | crates/bess-models/src/bms/balance.rs:79-122 | over any run that leaves it out of service a rack keeps its charge, draws nothing, does not bleed, its branch decays geometrically and its spread is its first plus so many ticks of drift and excess, up to a whole charge |
| IsolationLaws.SelfDischargeDay | crates/bess-core/src/kernel/fault.rs:152-172 | over a day out of service a self-discharge fault of p ppm a day widens the spread by p millionths past the rack's own drift |
| Bms.LimitsRespectWindow | crates/bess-models/src/bms.rs:49-62 | nothing out at or below the window floor, nothing in at or above its ceiling, nothing where the temperature tables permit nothing or out of service, never more than the rating |
| BleedLaws.LimitsTaper | crates/bess-models/src/bms.rs:49-62 | in service the limits are the rating at the cell temperature, discharge by its own table and charge by its own, a taper band or more inside the window, and inside the band the part of it that the distance to the edge is of the band |
| Bms.EvaluateRackAlarms | crates/bess-models/src/bms/alarms.rs:77-140 | the fold over the computed bits is the word `RackAlarmsRead` reads |
| Bms.RackAlarmsRead | crates/bess-models/src/bms/alarms.rs:77-140 | each of the ten bits: six follow their bands over the bit as it was, one mirrors isolation, three latch |
| Bms.RackAlarmsLatch | crates/bess-models/src/bms/alarms.rs:77-140 | evaluation never clears a latched bit |
| Converter.FinalizeInPlace | crates/bess-models/src/pcs.rs:195-214 | the conversion, field after field, is the function the converter laws are about |
| Converter.ReferencePcsIsSound | crates/bess-models/src/pcs.rs:121-129 | the reference coefficients satisfy the sizing condition the converter laws assume, at every rating |
| Converter.DischargeSolves | crates/bess-models/src/pcs.rs:147-153 | the AC power found for a DC power is non-negative and, when positive, plus its loss is exactly that DC power |
| Converter.ChargeSolves | crates/bess-models/src/pcs.rs:158-164 | wherever a target within the rating shows that a root exists, the AC draw found is the small root: not above that target, and equal to it when the target needs exactly that DC power |
| Converter.RequestThenFinalize | crates/bess-models/src/pcs.rs:179-214 | with limits that do not bind, finalizing the DC request of a target gives back the target inside the rating, and nothing exactly where the unit stands by: below the threshold, or on a charge that does not cover its own loss |
| Converter.ConverterTracks | crates/bess-models/src/pcs.rs:179-214 | for any DC delivery on the way to the request, AC power lies between nothing and the target inside the rating, and the loss is not negative |
| Converter.CapabilityCovers | crates/bess-models/src/pcs.rs:168-177 | what a block delivers stays inside the capability computed from the same DC limits, both ways |
| TrackingLaws.ConvertsWhole | crates/bess-models/src/pcs.rs:179-214 | of any part of the DC power a target takes, the converter makes the target exactly when the part is the whole |
| TrackingLaws.CapabilityExact | crates/bess-models/src/pcs.rs:168-177 | a power inside the rating can be made without passing the DC limits exactly when it is no more than the capability advertised, both ways |
| Converter.LossNonNegative | crates/bess-models/src/pcs.rs:132-135 | the loss curve never goes below zero |
| Thermal.NoEarlyRestart | crates/bess-models/src/thermal.rs:177-246 | over any trace of temperatures, failures and repairs, cooling never restarts within `min_off_s` of stopping |
| Thermal.NoEarlyShed | crates/bess-models/src/thermal.rs:177-246 | a healthy unit never sheds a stage within `min_run_s` of its last stage change |
| Thermal.StartsApart | crates/bess-models/src/thermal.rs:177-246 | two starts of a healthy unit are at least a minimum run plus a minimum pause apart |
| Thermal.StartsBounded | crates/bess-models/src/thermal.rs:177-246 | a healthy unit starts cooling in N ticks at most once, and once more per whole such cycle |
| Thermal.TimerGatesCompressorsOnly | crates/bess-models/src/thermal.rs:177-232 | no single decision to heat reads the timer, and a second unit joins a running one at once |
| Thermal.HeatsUnlessCooling | crates/bess-models/src/thermal.rs:177-246 | over any trace a healthy unit asked for heat heats in a tick exactly when no compressor was running |
| Thermal.HeatingComes | crates/bess-models/src/thermal.rs:177-246 | on a cold, healthy trace heating comes exactly with the remaining hold of a running compressor, a minimum run more from the second stage, and the ticks that shed them; at once from a stopped one |
| Gw01.HeatingCanWait | crates/bess-models/src/thermal.rs:177-246 | that heating is never delayed by the timer fails over time: at 10 C a unit that just started cooling heats from the 182nd tick, one whose timer has run out from the second |
| CoolingLaws.CoolingComes | crates/bess-models/src/thermal.rs:177-246 | on a hot, healthy trace a stopped unit cools exactly from the tick its remaining protection names, off and not heating until then, with both stages exactly when `cool2_on_c` is reached at that tick; a unit that cools goes on |
| CoolingLaws.CoolingTick | crates/bess-models/src/thermal.rs:177-232 | over any trace a unit that cools stops exactly when failed or released by off band and timer together, sheds its second stage exactly when both allow, and takes it on exactly at `cool2_on_c` |
| CoolingLaws.CoolsUntilReleased | crates/bess-models/src/thermal.rs:177-232 | it cools at every tick of a stretch exactly when none of them releases it |
| CoolingLaws.CoolingEnds | crates/bess-models/src/thermal.rs:177-246 | on a trace that stays cool and healthy a unit cools up to exactly the tick its timer, and for a second stage a minimum run more, names, and never again |
| CoolingLaws.KeepsMode | crates/bess-models/src/thermal.rs:177-220 | over any trace a healthy unit keeps its mode as long as the air stays inside that mode's band |
| CoolingLaws.HeatingEnds | crates/bess-models/src/thermal.rs:197-208 | the heater stops in the tick that finds its off band reached, and a failed unit is off |
| CoolingLaws.UnitPower | crates/bess-models/src/thermal.rs:250-281 | a unit takes heat out exactly while it cools and puts it in exactly while it heats; what it draws past its controls and fans is what it moves, over the COP when it cools |
| CoolingLaws.CellsRelax | crates/bess-models/src/thermal.rs:321-329 | cells close a fixed share of their way to the temperature at which they would pass on exactly their heat, never past it |
| CoolingLaws.EnvelopeFlows | crates/bess-models/src/thermal.rs:331-335 | heat comes in through the envelope exactly while the air is below the ambient raised by the sun's share, and goes out while above |
| Thermal.StepContainerInPlace | crates/bess-models/src/thermal.rs:293-347 | the loop over racks with its running heat flow is the container step `CoolingLaws` and the laws around it are about |
| Thermal.ContainerConservesHeat | crates/bess-models/src/thermal.rs:293-347 | heat stored in cells and air changes by exactly the heat of the racks plus the envelope gain less what the unit removes |
| InventoryLaws.TickHeats | crates/bess-core/src/kernel/block.rs:116-152 | on every tick the heat held in each container changes by what its racks give off, what the weather of that tick brings through the envelope, and what its unit takes out |
| Substations.StepGridInPlace | crates/bess-models/src/grid.rs:45-85 | the step with its early return is the substation function |
| Substations.ObserveInPlace | crates/bess-core/src/state/revenue.rs:54-72 | the fiscal tick, statement by statement, is the meter function |
| Substations.SubstationBalance | crates/bess-models/src/grid.rs:45-85 | what the converters put in leaves through the boundary, the transformer or the house load; registers never fall; an open breaker leaves the POI registers standing |
| Substations.FiscalAgrees | crates/bess-core/src/kernel.rs:223-234 | one tick moves the fiscal totals exactly as the SCADA registers, books to the open period or the one it closes, and closes a period on each quarter-hour |
| InventoryLaws.TransformerLoss | crates/bess-models/src/grid.rs:57-75 | the transformer loses nothing with the breaker open, its no-load loss at no power, the rated load loss more at the rating either way, and in between by the square of the loading |
| InventoryLaws.RegistersMove | crates/bess-models/src/grid.rs:57-85 | with the breaker open the house load is booked on the station-service feed; closed, what is left of the AC power on the export register when it flows out and on the import register when it flows in, never on both |
| Substations.QuarterHours | crates/bess-core/src/state/revenue.rs:64-71 | quarter-hours are counted by floors, negative times included |
| Plants.ContainersTickShape | crates/bess-core/src/kernel/block.rs:122-152 | a block step changes no container or rack count |
| Kernel.TickKeepsShape | crates/bess-core/src/kernel.rs:177-196 | a tick changes no block, container or rack count |
| Simulations.Simulation.constructor | crates/bess-core/src/kernel.rs:72-88 | a simulation resumed from a tree holds that tree and fresh buffers |
| Simulations.Simulation.BalanceBlock | crates/bess-core/src/kernel/block.rs:82-97 | pass one fills the buffers, by the running index, with the limits and bleed heat of every rack, and sums limits and racks in service |
| Simulations.Simulation.StepContainers | crates/bess-core/src/kernel/block.rs:116-152 | pass two steps every rack on its buffered limits, then the container, then the rack words, with the events of their changes |
| Simulations.Simulation.StepBlock | crates/bess-core/src/kernel/block.rs:57-180 | one block is `BlockTick`, its outcome `BlockOutcome`, its events racks first, then the converter, then the block, whatever the buffers held before; what the block makes of its setpoint is `TrackingLaws.BlockPower` |
| Simulations.Simulation.ReleaseNext | crates/bess-core/src/kernel/restart.rs:79-92 | the in-place release is the function the return laws are about |
| Simulations.Simulation.CloseTickAlarms | crates/bess-core/src/kernel/alarms.rs:137-150 | the site word is evaluated and logged last, and every event handed out is counted once |
| Simulations.Simulation.Step | crates/bess-core/src/kernel.rs:128-266 | the whole tick in its order of stages is the function `Tick` of the tree alone, and hands out what was pending and then what it changed; which setpoint it follows is `SetpointLaws.SetpointFollows` |
| Simulations.Simulation.SetExternalSetpoint | crates/bess-core/src/kernel.rs:109-117 | writes or clears the external setpoint and the mode |
| Simulations.Simulation.SetHvacFailed | crates/bess-core/src/kernel/commands.rs:39-53 | sets one flag, or refuses an unknown container and changes nothing |
| Simulations.Simulation.SetRackInService | crates/bess-core/src/kernel/commands.rs:60-80 | sets one flag, or refuses an unknown rack and changes nothing |
| Simulations.Simulation.SetBlockMode | crates/bess-core/src/kernel/commands.rs:87-95 | sets one mode, or refuses an unknown block and changes nothing |
| Simulations.Simulation.TripPcs | crates/bess-core/src/kernel/commands.rs:101-119 | trips one converter with its transition pending; `false` when already in fault |
| Simulations.Simulation.TripProtection | crates/bess-core/src/kernel/commands.rs:130-155 | latches the trip, opens the breaker, starts the return over and drops every converter, raise first and transitions after; nothing on a tripped site |
| Simulations.Simulation.ResetAlarms | crates/bess-core/src/kernel/alarms.rs:167-269 | the nested loops clear exactly the latched bits in scope, take converters out of fault, on a tripped site close the breaker and start the return over, and hand back the list `Causes.Still`, in the order visited |
| Causes.StillIsPresent | crates/bess-core/src/kernel/alarms.rs:256-268 | the list names exactly the trips that were latched on a rack in scope and whose condition still holds there |
| Causes.StillIsRacks | crates/bess-core/src/kernel/alarms.rs:167-222 | nothing but racks is ever on the list |
| EventOrderLaws.StillInOrder | crates/bess-core/src/kernel/alarms.rs:167-222 | the list is in tree order, bits rising, each cause once |
| Simulations.Simulation.Dispatch | crates/bess-core/src/kernel/fault.rs:143-198 | every action reaches its command and answers changed, unchanged or refused; what each sets, and which way, is `FlagLaws` and `LatchLaws` |
| Simulations.Simulation.Apply | crates/bess-core/src/kernel/fault.rs:134-141 | the mark goes in ahead of the effects; a refusal leaves the tree as it was |
| CommandLaws.DispatchHonest | crates/bess-core/src/kernel/fault.rs:143-198 | on a tree whose trip bit and breaker agree, an action is accepted exactly when it names nodes the site has, and answers `false` exactly when the tree is unchanged and nothing is pending |
| CommandLaws.ApplyHonest | crates/bess-core/src/kernel/fault.rs:134-141 | a refusal changes nothing; `Ok(false)` exactly when the tree is unchanged but for the mark; the mark then its effects are appended |
| CommandLaws.DispatchExplained | crates/bess-core/src/kernel/commands.rs:101-155 | replaying the events of any accepted action over the tree before gives the tree after, on every channel |
| EventOrderLaws.EffectsOrder | crates/bess-core/src/kernel/commands.rs:130-155 | the effects of an action are in order too: of a protection trip the raise and then the converters by block, of a reset block by block converter, word, racks, and the site word last |
| FlagLaws.OpSetsRack | crates/bess-core/src/kernel/fault.rs:143-198 | between ticks an operation makes of a rack what it names of it (service, excess rate, the latched half of its word) and of every other rack nothing |
| FlagLaws.OpSetsBlock | crates/bess-core/src/kernel/fault.rs:143-198 | between ticks only an enter or exit of its own moves a block's mode, only a reset that covers it its word, and nothing its setpoint, powers or miss timer |
| FlagLaws.OpSetsSite | crates/bess-core/src/kernel/fault.rs:143-198 | between ticks a protection trip latches its bit of the site word, a site reset clears the latched half, and nothing else writes the word or what the last tick measured |
| TickLaws.RackTick | crates/bess-core/src/kernel/block.rs:127-146 | one rack through one tick stays good, delivers no more than its share in either direction, and its books settle against its stored energy |
| TickLaws.ContainerSettles | crates/bess-core/src/kernel/block.rs:122-152 | a container tick keeps every rack good and settles its books |
| TickLaws.BlockTracks | crates/bess-core/src/kernel/block.rs:103-155 | the block converts something between nothing and its AC setpoint, within its rating and the capability it advertises, at a loss that is DC less AC and not negative; outside the dispatchable set it converts nothing and does not run |
| TickLaws.BlockBalances | crates/bess-core/src/kernel/block.rs:103-155 | what a block's DC side delivers and its racks lose is exactly the chemical and bled power its books drew |
| SiteLaws.SiteTracks | crates/bess-core/src/kernel.rs:137-196 | site AC power lies between nothing and the site setpoint and within the ratings of the released blocks; block setpoints sum to the site setpoint whenever any block is dispatchable; an open site makes nothing |
| SetpointLaws.SetpointFollows | crates/bess-core/src/kernel.rs:137-152 | a tick's setpoint is 0 with the breaker open; else the external setpoint under an external master and the plan at the tick's own unix time without, each as it is inside the rating and the signed rating outside |
| TrackingLaws.SetpointsEven | crates/bess-core/src/kernel/restart.rs:33-75 | every block connected, in service, not in fault and released is set to the same AC power, every other to none, and the settings sum to the site setpoint whenever there is such a block |
| TrackingLaws.EvenSplit | crates/bess-core/src/kernel/block.rs:104-129 | every rack in service of a block is asked for one and the same share, and the shares sum to the block's DC request |
| InventoryLaws.InServiceIsCount | crates/bess-core/src/kernel/block.rs:82-97 | with as many shares as there are positions of racks in service |
| InventoryLaws.DcLimitsAre | crates/bess-core/src/kernel/block.rs:82-97 | and DC limits that are those of all the block's racks, added up |
| TrackingLaws.BlockMeets | crates/bess-core/src/kernel/block.rs:103-155 | let each be an even share of the DC power its setpoint takes: a block that does not stand by makes exactly its AC setpoint if and only if every rack in service can give its share, inside the limits of its BMS and what its cells can deliver; one that stands by makes nothing |
| TrackingLaws.BlockPower | crates/bess-core/src/kernel/block.rs:103-155 | and in part as in full: the shares sum to what the setpoint takes inside the rating, held to the DC limits; DC power is what each rack makes of its share, held to its own; AC power is what leaves exactly its loss, or none below the no-load loss |
| TrackingLaws.SiteMeets | crates/bess-core/src/kernel.rs:177-196 | a site with a block to take a share makes exactly its setpoint if and only if every block makes its own |
| TrackingLaws.AvailabilityIs | crates/bess-core/src/kernel.rs:194-198 | the availability published is the capability of the blocks that take a share, added up |
| SiteLaws.TickLedger | crates/bess-core/src/kernel.rs:177-240 | one tick: everything metered out or lost grows by the chemical plus the bled energy, breaker open or closed, and metered auxiliaries move with the itemized ones |
| SiteLaws.TickSettles | crates/bess-core/src/kernel.rs:177-196 | one tick: stored energy falls by no more than the books and lags them by at most the gap |
| InventoryLaws.HouseLoad | crates/bess-models/src/aux.rs:65-75 | the house load of a tick, item by item, off the tree it leaves: every rack's BMS, every converter that idles in a block in service, every HVAC unit by its mode, and the constant loads |
| InventoryLaws.RackCountIs | crates/bess-core/src/kernel.rs:207-209 | the racks counted are those of the tree, each once |
| InventoryLaws.NotConvertingIs | crates/bess-core/src/kernel.rs:210-219 | and the converters counted those in standby or fault in a block not maintained |
| InventoryLaws.MetersRead | crates/bess-core/src/kernel.rs:190-240 | each meter, the five house items included, moves by the hour's share of the power the tree then shows under its name |
| InventoryLaws.TickRecords | crates/bess-core/src/kernel.rs:128-135 | a tick records its weather, counts one second and leaves nothing pending |
| SiteLaws.SiteWordReads | crates/bess-core/src/kernel/alarms.rs:92-130 | after a tick the breaker bit mirrors the breaker, the availability bit is clear exactly when every block is dispatchable and every rack in service, and the limitation bit follows its band on what the blocks delivered |
| InventoryLaws.EveryTickLimited | crates/bess-core/src/kernel/alarms.rs:92-112 | on every tick of every run the limitation bit follows its band on the distance of the site's power from its setpoint, as a share of the rating |
| InventoryLaws.AvailabilityReads | crates/bess-core/src/kernel/alarms.rs:113-130 | after every tick the availability bit is up exactly when some block is not connected, in service, out of fault and released, or some rack is out of service |
| SiteLaws.BlockWordReads | crates/bess-core/src/kernel/alarms.rs:48-89 | after a tick all five bits of a block say what the block then holds, the miss bit by the timer of ticks in a row off the setpoint and its clear band |
| InventoryLaws.AirMaxIs | crates/bess-core/src/kernel/alarms.rs:68-77 | the air its over-temperature bit reads is that of the warmest container |
| SiteLaws.RackWordReads | crates/bess-core/src/kernel/block.rs:141-152 | after a tick a rack's word is the evaluation of the rack the tick leaves, over the word it had |
| SiteLaws.TickKeepsInv | crates/bess-core/src/kernel.rs:128-266 | a tick keeps racks good, words laid out, and trip, breaker, return and converters in step |
| Runs.DispatchKeepsInv | crates/bess-core/src/kernel/fault.rs:143-198 | every accepted action keeps the invariant |
| Runs.RunKeepsInv | crates/bess-core/src/kernel.rs:128-266 | every tree reachable by ticks, actions, commands and setpoints satisfies the invariant |
| RunLaws.EveryTickTracks | crates/bess-core/src/kernel/block.rs:103-155 | the tracking sandwich on every tick of every run, block by block and for the site |
| RunLaws.WrittenMeans | crates/bess-core/src/kernel/fault.rs:143-198 | what the laws below call written: what the last operation to write a value wrote, and the first value where none did |
| SetpointLaws.MasterHolds | crates/bess-core/src/kernel.rs:109-117 | on every run the master and the external setpoint are those of the last setpoint operation; no tick and no action writes them |
| SetpointLaws.BreakerHolds | crates/bess-core/src/kernel/commands.rs:130-155 | on every run the breaker stands where the last protection trip or site reset left it |
| SetpointLaws.EveryTickFollows | crates/bess-core/src/kernel.rs:137-152 | the setpoint of every tick of every run, from the operations alone: 0 after a trip with no site reset since, else the last external setpoint given and not withdrawn, else the plan at the tick's own time, inside the rating |
| SetpointLaws.PlannedTick | crates/bess-models/src/ems.rs:68-82 | on every tick of every run that follows the day-ahead plan of a loaded year, the site is set to charge, discharge or rest by how many slots of its local day are cheaper or dearer than the hour the tick lies in |
| TrackingLaws.EveryTickDelivers | crates/bess-core/src/kernel/block.rs:103-155 | on every tick of every run each block that does not stand by makes its AC setpoint inside its rating exactly when every rack in service can give an even share; its converter runs exactly while DC power flows out of fault; and the site makes its setpoint exactly when every block does |
| TrackingLaws.EveryTickPowers | crates/bess-core/src/kernel/block.rs:103-155 | and on every tick of every run the power of every block, delivered in full or in part, is exactly that |
| TrackingLaws.EveryTickAvailable | crates/bess-core/src/kernel.rs:177-198 | on every tick of every run what the site makes stays inside the availability published, and that inside the ratings of the blocks released |
| FlagLaws.RackFlagsHold | crates/bess-core/src/kernel/fault.rs:152-184 | on every run a rack is out of service exactly when the last isolate or restore naming it was an isolate, and its excess rate is ppm x 1e-6 / 86400 of the last command that set it; nothing else moves either |
| FlagLaws.BlockModeHolds | crates/bess-core/src/kernel/fault.rs:185-194 | on every run a block is in maintenance exactly when the last enter or exit of it was an enter |
| FlagLaws.FailureHolds | crates/bess-core/src/kernel/fault.rs:144-151 | on every run a unit is failed exactly when the last failure or repair of it was a failure |
| RunLaws.RunLedger | crates/bess-core/src/kernel.rs:169-259 | the exact site ledger over every run, breaker open or closed, and metered against itemized auxiliaries |
| RunLaws.RunResidual | crates/bess-bench/src/run.rs:238-250 | the site balance residual is never positive and never below minus the summed per-rack gaps, on every run |
| LossLaws.TickLoss | crates/bess-core/src/kernel.rs:190-196 | the battery meter falls in a tick exactly when the heat of all racks sums below zero, and by no more than the polarization branches gave back in it |
| LossLaws.WarmTick | crates/bess-core/src/kernel.rs:190-196 | in a tick that asks no rack for a share its polarization branch outweighs the battery meter does not fall |
| LossLaws.OneRackTick | crates/bess-core/src/kernel.rs:190-196 | on a site of one unbled rack it falls exactly in the ticks that do |
| LossLaws.RunLossBound | crates/bess-models/src/cell.rs:141-146 | on every run the battery meter never falls below an earlier reading by more than the energy in the polarization branches then, tau / (2 r1) v1^2 summed over racks; what the branches gained was metered first |
| LossLaws.RunOthersRise | crates/bess-core/src/state/energy.rs:76-96 | on every run the converter, transformer and consumption meters, item by item, only rise |
| Gw01Heat.BatteryMeterFalls | crates/bess-core/src/state/energy.rs:76-81 | the claim that every counter is monotonic fails: on a new tree of one rack, 190 kW out for a tick and 13 kW in for the next, the battery meter falls |
| Gw01Heat.TablesAreBuilt | crates/bess-models/src/bms/derate.rs:96-126 | the curves that run uses are those `New` builds from the two published tables |
| Gw01Heat.LossParametersAreSound | crates/bess-models/src/lib.rs:41-57 | the reference bundle meets what the loss laws assume besides |
| RunLaws.LogComplete | crates/bess-core/src/kernel/alarms.rs:137-150 | on every run, folding all events handed out and then the pending ones over the first tree gives every word and converter state of the last, no event contradicting what it meets; the count is the number handed out |
| RunLaws.PendingReads | crates/bess-core/src/kernel/fault.rs:134-141 | after any commands between ticks the pending row reads cause, effects, cause, effects, in order |
| SafetyLaws.BreakerMoves | crates/bess-core/src/kernel/commands.rs:130-155 | only a protection trip opens the breaker and only a site reset closes it |
| SafetyLaws.TripSafety | crates/bess-core/src/kernel/commands.rs:130-155 | in every reachable tree the trip bit is latched exactly while the breaker is open, no more blocks are released than exist, and while open none is released, running or dispatchable |
| SafetyLaws.TripHolds | crates/bess-models/src/grid.rs:57-68 | until a site reset a tripped site stays open and its POI and fiscal registers stand still, whatever else happens |
| LatchLaws.LatchHolds | crates/bess-core/src/kernel/alarms.rs:151-166 | on every run a latched rack trip stays raised until the first reset whose scope covers the rack, and that one clears it |
| LatchLaws.FaultHolds | crates/bess-core/src/kernel/commands.rs:97-119 | on every run a converter is in fault exactly when something tripped it and no reset covering its block came after |
| HvacRuns.RunFollowsTrace | crates/bess-models/src/thermal.rs:293-318 | after any run a container's unit is its controller after the trace of that run, one moment of air temperature and failure per tick |
| HvacRuns.RunNoEarlyRestart | crates/bess-models/src/thermal.rs:177-246 | on every run, whatever weather, heat, failures, repairs and commands come between, cooling restarts no sooner than `min_off_s` after it stopped |
| HvacRuns.RunStartsBounded | crates/bess-models/src/thermal.rs:177-246 | on every run that does not fail it a unit starts cooling at most once, and once more per whole protected cycle |
| HvacRuns.RunHeats | crates/bess-models/src/thermal.rs:177-246 | on every run that stays cold and healthy for it a unit heats exactly from the tick its delay names |
| HvacRuns.RunCools | crates/bess-models/src/thermal.rs:177-246 | on every run that stays hot and healthy for it a stopped unit cools exactly from the tick its remaining protection names, and one that cools goes on |
| HvacRuns.RunCoolingEnds | crates/bess-models/src/thermal.rs:177-246 | on every run that stays cool and healthy for it a unit cools up to exactly the tick its timers name |
| ReraiseLaws.TickReraises | crates/bess-core/src/kernel/block.rs:141-152 | a tick raises a clear trip bit of a rack exactly when its condition holds on the rack the tick leaves; read off before: on the temperature heat and air bring, and on the spread the BMS step leaves |
| ReraiseLaws.StillReraises | crates/bess-core/src/kernel/alarms.rs:163-164 | every cause a reset of any scope hands back is raised again on the next tick exactly when its condition will hold at the end of that tick |
| Gw01Reset.StillNeedNotReraise | crates/bess-core/src/kernel/alarms.rs:163-164 | that they always re-raise fails: an isolated rack at exactly 60 C in 25 C air is on the list and its trip is clear after the tick |
| SafetyLaws.RunFiscal | crates/bess-core/src/state/revenue.rs:54-72 | on every run from any tree, closed records plus the open period account for what the totals gained, totals move with the SCADA registers, and one period closes per quarter-hour boundary passed |
| SafetyLaws.FreshFiscal | crates/bess-core/src/state/revenue.rs:41-72 | from a new meter, closed periods plus the open one are the totals and the totals are the SCADA registers |
| InventoryLaws.RunPeriodStart | crates/bess-core/src/state/revenue.rs:64-71 | on every run the open period began at the last quarter-hour passed, once one has been |
| ReturnLaws.TripStartsOver | crates/bess-core/src/kernel/restart.rs:48-51 | a trip takes the return to nothing released, and the reset that closes the breaker begins it from the top |
| ReturnLaws.ReleaseOnSchedule | crates/bess-core/src/kernel/restart.rs:79-92 | one release step keeps the closed form, countdown included |
| ReturnLaws.ReturnSchedule | crates/bess-core/src/kernel/restart.rs:79-92 | block k is released exactly from the connected tick that comes k x max(1, ceil(spacing/dt)) after the one that released block 0, until the next trip |
| Gw01.ParametersAreSound | crates/bess-models/src/lib.rs:41-57 | the reference bundle meets what every run law assumes of its models |
| Gw01.FreshTreeIsGood | crates/bess-core/src/state/init.rs:25-119 | a new tree of any size and any draws in range satisfies the invariant |
| Devices.Outbox.Observe | crates/bess-emulator/src/mqtt/tap.rs:87-106 | the in-place edges of a dropout are the function the outbox laws are about |
| Devices.Outbox.Send | crates/bess-emulator/src/mqtt/tap.rs:125-145 | publish, or keep in a dropout, dimmed, or behind a draining replay; success exactly as `SendOk` says |
| Devices.Outbox.Backfill | crates/bess-emulator/src/mqtt/tap.rs:149-178 | the burst loop, a slice per call, stopping at an empty store or a refusal, is the function the replay laws are about |
| Devices.Outbox.Returned | crates/bess-emulator/src/mqtt/tap.rs:110-113 | reports and forgets that a dropout ended |
| Outboxes.NothingLostSilently | crates/bess-emulator/src/mqtt/tap.rs:84-178 | after any sequence of sends, replays, dropouts, returns and reconnects with any client, everything handed in is exactly what has left plus what is stored, the store bounded, and free of retained messages unless a replay drains it |
| Outboxes.EveryMessageAccounted | crates/bess-emulator/src/mqtt/tap.rs:84-178 | every message is once on the wire, in the store, refused to the sender, refused out of a replay, forgotten by a full store, or cleared by a new dropout |
| Outboxes.NothingDarkRetained | crates/bess-emulator/src/mqtt/tap.rs:132-139 | a retained message is on the wire at most as often as it was sent live |
| Outboxes.ReplayInOrder | crates/bess-emulator/src/mqtt/tap.rs:140-178 | while every send finds a dropout or a draining replay, what leaves is the store in birth order with the newer messages behind it, and what waits comes after both |
| Outboxes.LiveConserves | crates/bess-emulator/src/mqtt/tap.rs:132-145 | a message sent online with no replay draining goes to the client at once, and leaves the store as it was |
| ReplayLaws.KeepIs | crates/bess-emulator/src/mqtt/tap.rs:115-122 | the store keeps the newest 65536 messages and counts the ones it forgets, none while there is room |
| ReplayLaws.DropoutKeeps | crates/bess-emulator/src/mqtt/tap.rs:87-139 | after a dropout of any length the store holds exactly the last 65536 messages sent in it, dimmed, in order, the count says how many it forgot, and nothing has gone out |
| ReplayLaws.BackfillDoes | crates/bess-emulator/src/mqtt/tap.rs:149-178 | a wake does nothing offline or with no burst new; else, in the running replay or that of the first new burst, it hands over 512 messages from the front, or up to a refusal, or all there are, and only the last ends the replay |
| ReplayLaws.FirstNewIs | crates/bess-emulator/src/mqtt/tap.rs:153-160 | the burst begun is the first due that has not been replayed |
| ReplayLaws.ReplayDelivers | crates/bess-emulator/src/mqtt/tap.rs:149-178 | in closed form, to a client that takes them: 512 messages a wake, in stored order, until the store is empty |
| ReplayLaws.DropoutReplayed | crates/bess-emulator/src/mqtt/tap.rs:84-178 | from a dropout to the wire: everything sent in it, up to the last 65536, reaches such a client after the burst comes due, once each, in order, none of it retained, in as many wakes as slices of 512 leave one short |
| ReplayLaws.ReturnedOnce | crates/bess-emulator/src/mqtt/tap.rs:87-113 | over every history `returned` reports a dropout that ended exactly when one ended and no call since has reported it |
| Outboxes.BurstsReplayOnce | crates/bess-emulator/src/mqtt/tap.rs:153-168 | each burst starts at most one replay, online and once due |
| Devices.Publisher.PublishCadence | crates/bess-emulator/src/mqtt/publisher.rs:83-116 | the loop over due points with its stop at a refusal, and the stamping loop, are the function `CadenceLaws` is about |
| Devices.Publisher.PublishChanged | crates/bess-emulator/src/mqtt/publisher.rs:120-158 | the loop sends each changed word retained, records it only on success, and forgets its cache on a new connection or a return |
| Devices.Publisher.PublishEvents | crates/bess-emulator/src/mqtt/publisher.rs:161-185 | the loop with its count is the function `DeliveryLaws` is about |
| CadenceLaws.CadenceMeans | crates/bess-emulator/src/mqtt/publisher.rs:83-116 | one wake hands over the points of due classes in index order, stopping at the first the client refuses, and stamps the due classes whether or not their points went out |
| CadenceLaws.DueAre | crates/bess-emulator/src/mqtt/publisher.rs:88-99 | those are the readings of exactly the points of due classes, once each |
| MessageLaws.CadenceSays | crates/bess-emulator/src/mqtt/publisher.rs:83-116 | every message of a cadence wake gives the reading of a point of a due class by the device clock, at most once and not retained |
| CadenceLaws.ClassOncePerPeriod | crates/bess-emulator/src/mqtt/publisher.rs:111-115 | over any history two wakes at which a class was due are a period of plant time apart |
| CadenceLaws.DueExactly | crates/bess-emulator/src/mqtt/publisher.rs:88-115 | and at a cadence wake of any history a class is due exactly when it never was, or 1, 10 or 60 seconds have passed since it last was |
| DeliveryLaws.EventsOnceInOrder | crates/bess-emulator/src/mqtt/publisher.rs:161-185 | publishing a batch hands over each event once, in log order, numbered from the first |
| MessageLaws.EventsSay | crates/bess-emulator/src/mqtt/publisher.rs:161-185 | each names its event and its number in the log, by the batch's stamp, at least once and not retained |
| DeliveryLaws.DroppedCounts | crates/bess-emulator/src/mqtt/publisher.rs:174-179 | over any history the dropped count is the number of events the client refused to the publisher's face |
| DeliveryLaws.EventsAccounted | crates/bess-emulator/src/mqtt/publisher.rs:174-179 | every event is on the wire, waiting, counted as dropped, or lost uncounted in a replay, an overflow or a clear; the count is that of all lost events exactly when there were none of those three |
| DeliveryLaws.BrightCountsAll | crates/bess-emulator/src/mqtt/publisher.rs:174-179 | as long as no dropout opens every event not on the wire was counted |
| DeliveryLaws.LostEventUncounted | crates/bess-emulator/src/mqtt/publisher.rs:175-177 | the claim that a lost event is counted fails: one sent in a dropout and refused in its replay is gone with the count at zero |
| DeliveryLaws.HistoryByOps | crates/bess-emulator/src/mqtt/publisher.rs:76-185 | whatever the publisher does, its outbox goes through a history of sends, replays, returns and reconnects, so every outbox law holds of it |
| DeliveryLaws.DeviceAccounted | crates/bess-emulator/src/mqtt/tap.rs:84-178 | on the device every message ever sent is once on the wire, in the store or in one of the four named losses, and nothing born in a dropout goes out retained |
| MessageLaws.ChangedMeans | crates/bess-emulator/src/mqtt/publisher.rs:120-158 | a wake of the change loop hands over, once each and in index order, the words that differ from the last published, and every word after a new connection or a dropout that ended |
| MessageLaws.NewWordsSay | crates/bess-emulator/src/mqtt/publisher.rs:130-150 | each of those gives the reading of an on-change point whose last differs, at least once and retained |
| MessageLaws.NewWordsAll | crates/bess-emulator/src/mqtt/publisher.rs:130-150 | and none of them is left out |
| RetainedLaws.StepHolds | crates/bess-emulator/src/mqtt/publisher.rs:120-158 | every wake and every reconnect keeps the promise behind the cache: the last word of a point is on its way or was published on this connection |
| RetainedLaws.RetainedWordsAgree | crates/bess-emulator/src/mqtt/publisher.rs:120-158 | after any history, once `publish_changed` finds the device online with no replay draining, the newest word of every event-class point has left and no dropout cleared it; and the broker retains what the point reads if and only if the client took that word, or the last one taken since the connection, or what the connection brought, already says so |
| RetainedLaws.RetainedWordsBefore | crates/bess-emulator/src/mqtt/publisher.rs:120-158 | the same read off before the call: the broker agrees after it exactly when the call sends the word and the client takes it, or the broker agreed before |
| BrokerLaws.BrokerRetains | crates/bess-emulator/src/mqtt/publisher.rs:120-158 | after any history the broker holds, of each point, the last word accepted since the connection, or else what the connection brought |
| RetainedLaws.RetainedWordsExact | crates/bess-emulator/src/mqtt/publisher.rs:120-158 | it does whenever the client takes every retained message and no replay is joined by more messages than the store holds, whatever else is refused or lost |
| RetainedLaws.RefusedReplayLosesWord | crates/bess-emulator/src/mqtt/tap.rs:169-177 | a history that shows the condition is needed: a word refused in a replay is lost and the broker stays wrong |
| Calendars.NextDaySucceeds | crates/bess-data/src/calendar.rs:10-18 | the day after a date has the next day count, with 1970-01-01 at zero, over month ends, leap days and centuries |
| Calendars.DateRoundTrip | crates/bess-data/src/calendar.rs:10-33 | `civil_from_days` undoes `days_from_civil` on every real date |
| Calendars.DaysRoundTrip | crates/bess-data/src/calendar.rs:22-33 | every integer is the day count of a real date, and `days_from_civil` undoes `civil_from_days` on all of them |
| Calendars.RealDatesSurvive | crates/bess-scenario/src/validate.rs:200-204 | a date is real exactly when it survives the round trip |
| Calendars.ClockAgrees | crates/bess-scene/src/clock.rs:81-97 | the truncating variant computes the same day count, before year 0 too |
| Calendars.InstantRoundTrips | crates/bess-scene/src/clock.rs:12-97 | timestamps and instants are each the other's inverse |
| Calendars.ClockRoundTrip | crates/bess-scene/src/clock.rs:12-33 | the clock's own pair, with its 32-bit year, round-trips a timestamp exactly when the year fits |
| Calendars.MonthRollover | crates/bess-scene/src/clock.rs:74-97 | an out-of-range month rolls into the next year exactly up to month 14; from 15 on the carry is lost |
| Calendars.ThirdCopyAgrees | crates/bess-models/src/calendar.rs:53-69 | the planner's month and day are those of `civil_from_days` |
| Calendars.ReferenceHourIsCalendar | crates/bess-models/src/calendar.rs:26-38 | the reference hour is the hour of the reference year at the same month, day and time, and stays inside that year |
| Starts.AcceptsExactlyRealInstants | crates/bess-scenario/src/validate.rs:179-208 | `parse_start` answers a timestamp exactly for the text that is the canonical spelling of that instant, years 0 to 9999 |
| Targets.DisplayParses | crates/bess-scenario/src/schema/target.rs:61-137 | every node of every site prints to a path that parses back to it |
| Targets.ParsesDisplay | crates/bess-scenario/src/schema/target.rs:204-251 | every accepted path names a node of the site and is its one spelling |
| Targets.CanonicalPaths | crates/bess-scenario/src/schema/target.rs:61-137 | a path parses to a node exactly when the site has the node and the path is how it prints |
| Targets.ErrorsQuoteThePath | crates/bess-scenario/src/schema/target.rs:62-68 | a refusal quotes the beginning of the path it was given |
| Plans.PlaceIsCount | crates/bess-models/src/ems/plan.rs:21-29 | the place of a slot in the ranking is the number of slots ahead of it |
| Plans.RankMeans | crates/bess-models/src/ems/plan.rs:21-44 | a slot's bit is set exactly when fewer than the asked hours rank ahead of it, cheapest or dearest first, ties to the earlier |
| Plans.ChargeCount | crates/bess-models/src/ems/plan.rs:21-29 | as many slots charge as asked for, or the whole of a shorter day |
| Plans.AnySortRanks | crates/bess-models/src/ems/plan.rs:21-29 | whatever sorts the slots into rank order finds this ranking |
| Plans.DischargeCount | crates/bess-models/src/ems/plan.rs:21-44 | as many slots discharge as asked for, or the whole of a shorter day, less those that are also among the cheapest |
| Plans.DischargesInFull | crates/bess-models/src/ems/plan.rs:21-44 | a day discharges in all the hours asked for exactly when every slot bought is strictly cheaper than every slot sold |
| Plans.FlatDayNeverDischarges | crates/bess-models/src/ems/plan.rs:36-44 | on a day of one price that is to charge at least as long as it discharges, nothing discharges |
| Prices.CheckDayStarts | crates/bess-data/src/prices/codec.rs:119-135 | a table is accepted exactly when it runs from 0 to the series length in days of 23 to 25 hours; a refusal names the first day at fault |
| Prices.DayOfInverts | crates/bess-data/src/prices.rs:108-117 | an hour belongs to a day exactly when the day's range holds it |
| Prices.LookupInBounds | crates/bess-data/src/prices.rs:92-111 | lookup is in bounds, in the day that holds the hour, exactly on a year that has hours |
| Prices.LookupIs | crates/bess-data/src/prices.rs:92-95 | the slot an hour reads is the one congruent to it past the offset, so hours follow one another through the series and wrap at its end |
| Prices.EmptyYearLoads | crates/bess-data/src/prices/codec.rs:119-135 | a table of no days over no hours is accepted and has no lookup |
| Planners.TargetMeans | crates/bess-models/src/ems.rs:68-82 | for every timestamp and every loaded year with hours the target is -P, +P or 0 exactly by the two rankings of the local day that holds the hour |
| Planners.SameChargeEveryDay | crates/bess-models/src/ems/plan.rs:14-18 | two local days charge in the same number of slots exactly when no more are asked for than the shorter has or they are equally long; so on every day up to 23 |
| Planners.SameDischargeOnSpreads | crates/bess-models/src/ems/plan.rs:14-18 | between days with a spread the same holds of the slots that discharge; a day without one discharges in fewer than asked |
| Planners.SpringDayChargesLess | crates/bess-models/src/ems/plan.rs:14-18 | the claim that the counts are the same on every day fails past the shortest: 24 charging hours are 23 on a spring day |
| Schedules.CheckOrder | crates/bess-scenario/src/validate.rs:67-91 | the pass with the last event per target accepts exactly the files whose times rise on every target, and a refusal names two that do not |
| Schedules.ResolveSorts | crates/bess-scenario/src/resolve.rs:100-126 | the schedule is sorted by tick and file index and holds every event exactly once |
| Schedules.AnySortResolves | crates/bess-scenario/src/resolve.rs:100-126 | whatever sorts the events by tick and file index finds this schedule |
| ScenarioRuns.FiresOnItsTick | crates/bess-scenario/src/resolve.rs:100-118 | an event of the file fires on the tick its time falls in, as the file lists it, and on no other |
| Players.Player.Due | crates/bess-scenario/src/player.rs:70-80 | hands out the entries up to the tick and moves the cursor past them |
| Players.Player.FireDue | crates/bess-scenario/src/player.rs:85-99 | applies the physical ones in order, a refusal not stopping the rest, and reports the first refusal, as `ScenarioRuns.FiringStep` and `FirstRefusedMeans` spell out |
| Players.Player.CatchUp | crates/bess-scenario/src/player.rs:104-106 | puts the cursor after everything before the tick |
| Players.RoundInStep | crates/bess-emulator/src/sim.rs:240-250 | a round is commands, firing, step; each event is handed out once, in the round of its tick |
| ScenarioRuns.FireIsRun | crates/bess-scenario/src/player.rs:85-99 | firing is one `apply` per physical entry due, in schedule order; the events pending grow by the mark and the effects of each accepted one |
| ScenarioRuns.FiringStep | crates/bess-scenario/src/player.rs:85-99 | entry by entry, a data fault and a refusal change nothing and skip only themselves; an accepted action leaves its tree, its mark and its effects |
| ScenarioRuns.FirstRefusedMeans | crates/bess-scenario/src/player.rs:87-96 | the refusal reported is the first, and none is exactly when every action was accepted in its turn |
| ScenarioRuns.RoundIsRun | crates/bess-emulator/src/sim.rs:240-250 | a round leaves the tree, and hands out the events, of the run of its commands, one `apply` per entry scheduled at its tick, and one tick |
| ScenarioRuns.PlayIsRun | crates/bess-emulator/src/sim.rs:240-250 | a played scenario is such a run from end to end, so every law of runs is a law of scenarios |
| ScenarioRuns.ScenarioLogComplete | crates/bess-emulator/src/sim.rs:240-250 | for one: every alarm word and converter state at the end of a scenario is what its events make of the first |
| Players.ResumeIsUninterrupted | crates/bess-emulator/src/sim.rs:152-156 | stopping after any step and any of the commands of the next round, keeping the tree, rebuilding the player from its tick and playing on gives the trees and events of the run that never stopped |
| Players.ResumeAfterStep | crates/bess-scenario/src/player.rs:101-106 | the case of no commands since the step |
| Players.ResumeAfterFiring | crates/bess-scenario/src/player.rs:101-106 | a tree taken after firing and before the step resumes to the same player exactly when nothing was due |

## Left out

- Floating point itself: rounding, NaN and signed zero, `total_cmp` on them, and `to_bits` equality; `f64::EPSILON` is kept as a positive constant.
- Updates through references into the tree: parts are replaced by value; the source owns the tree, so nothing aliases it.
- Simulations.Simulation.CloseTickAlarms: the running digest of the event log is not modelled, only its count; the digest is a hash of the serialized events, whose encoding is no part of the model.
- Grid frequency, POI voltage and reactive power, which no modelled quantity reads.
- The random streams: initial charge, resistance and spread are any values in their ranges, and a drawn self-discharge rate is any rate.
- The rack count of the auxiliary model is that of the tree, which equals the configured one for every tree built from a configuration.
- Scratch buffers shorter than a block of the tree: the source panics there, and the methods ask for buffers that fit.
- Price days of more than 32 slots, where `DayPlan::rank` panics; a loaded table has none.
- `FlatPcs`, `SyntheticWeather` and other superseded models.
- Tap value arithmetic: what a point reads, whether the device is in a dropout and which bursts are due are inputs of each wake.
- Topics and payloads as text, quality of service on the wire, and a reconnect in the middle of one `publish_changed` call; a reconnect falls between wakes.
- Scenario refusals other than the time order on a target, the checks of `resume` on seed and file hash, run length and speed.
- Loading and encoding of artifacts and checkpoints, name tables, the signal map, reports and every network surface.
- `usize` and `i64` widths where no reachable value comes near them; the 32-bit year of the clock and 64-bit indices of target paths are modelled.
