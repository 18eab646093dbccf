# N4 rocket flight software and base station, modelled in Dafny

This project models the core of the Nakuja N4 rocket software. It has three parts.

- **The flight computer.**
  - The five-slot apogee ring buffer (`ring_buffer.cpp`).
  - The arming commands received over MQTT.
  - The flight-state machine in `checkFlightState`, with its apogee window, apogee estimate, main-deploy gate and landing check.
  - The pyro callback that fires the drogue and main charges.
  - The altitude Kalman filter.
  - The system logger that writes `timestamp:client:LEVEL:message` lines to flash files.
- **The post-flight data-recovery tool.** It is a serial menu that dumps the flash file `flight.txt` as CSV and lists the files on the flash chip.
- **The base station.**
  - The sidebar helpers (antenna band, and the status text for a flight-state code).
  - The log and telemetry handlers. They queue entries and POST them in batches.
  - The log and telemetry services. They rotate old CSV files and answer paged, filtered, newest-first queries over them.

Each module follows one source file.

| Module | Models |
|---|---|
| `RingBuffer` | the ring buffer |
| `FlightDefs` | `states.h` and the flight constants |
| `FlightStep` | one pass of `checkFlightState` as a function, plus runs of passes |
| `FlightComputer` | the flight computer's globals as a class whose methods are proved against `FlightStep` |
| `KalmanFilter` | the altitude filter |
| `SystemLogger` | the logger |
| `DataRecovery` | the recovery tool |
| `SidebarUtils` | the sidebar helpers |
| `BatchSend`, `LogHandling`, `TelemetryHandling` | the handlers |
| `ServiceCommon`, `LogServing`, `TelemetryServing` | the services |

`CInts`, `Decimal`, `Strings`, `JsText` and `Wrappers` hold the C and JavaScript semantics the model needs:

- 8-bit wrap-around;
- float truncation;
- `%d` of an unsigned value;
- decimal rendering;
- `split` and `join`;
- `trim`, `slice`, `splice` and `padStart`;
- the logical-or default of an option and destructuring defaults.

Where the code changes state in place, the model is a class with that state, and each method is proved equal to a value-level specification function. The properties are lemmas about those functions.

Where the code and its documentation disagree, the model follows the code:

- **Apogee estimate.** The code computes it as `oldest + (oldest - a) / 2`, truncated to an integer. It adds the half-difference, where the documentation subtracts it.
- **Chained comparisons.** C++ evaluates `10 < a < 30` as `(10 < a) < 30`, which is always true. So before apogee every altitude of 10 m or more is POWERED_FLIGHT, and COASTING is never assigned.
  - The main-deploy gate `(10 <= a) <= apogee_val` is also modelled as written. It is open for every altitude once apogee_val is at least 1.
- **The sample flight.** The altitudes 0, 5, 20, 200, 199, 150, 5 from boot detect apogee on the seventh sample, with apogee_val 27. The run ends in DROGUE_DESCENT, not on the ground.
- **Unused filter.** `kalmanFilter` is never called by any task.
- **Sidebar codes.** Read against the flight computer's enum, the sidebar shows PRE_FLIGHT_GROUND (0) as "Pre Flight", POWERED_FLIGHT (1) as "Powered Flight", COASTING (2) as "Apogee", APOGEE (3) as "Drogue Deployed", DROGUE_DEPLOY (4) as "Main Deployed", DROGUE_DESCENT (5) as "Rocket Descent" and MAIN_DEPLOY (6) as "Post Flight". MAIN_DESCENT (7) and POST_FLIGHT_GROUND (8) show the default status.
- **Log file names.** The log service names its files `rocket-telemetry-YYYY-MM-DD.csv`, like the telemetry service.
- **Log upload URL.** `sendLogs` posts to a hard-coded URL and ignores `apiEndpoint`.
- **Rejected uploads.** When a send is answered "not ok", the handlers put the batch back in front of a queue that still holds it, so the batch is duplicated.

## Model

| member | source | states |
|---|---|---|
| CInts.Inc8 | recovery_team/N4-code/N4-Flight-Software/flight-data-recovery/n4-data-recovery-code/src/main.cpp:55 | incrementing a uint8 adds one, and 255 wraps to 0 |
| CInts.Dec8 | recovery_team/N4-code/N4-Flight-Software/n4-flight-software/src/ring_buffer.cpp:33 | decrementing a uint8 subtracts one, and 0 wraps to 255 |
| CInts.AsSigned32 | recovery_team/N4-code/N4-Flight-Software/n4-flight-software/src/system_logger.cpp:21-23 | `%d` of an unsigned 32-bit value prints the signed 32-bit number congruent to it modulo 2^32 |
| CInts.Trunc | recovery_team/N4-code/N4-Flight-Software/n4-flight-software/src/main.cpp:596-611 | assigning a float to an int truncates toward zero: the result is within 1 of the value, on the zero side |
| FlightDefs.Code | recovery_team/N4-code/N4-Flight-Software/n4-flight-software/src/states.h:9-19 | each flight state has a code below 9 |
| FlightDefs.FromCode | recovery_team/N4-code/N4-Flight-Software/n4-flight-software/src/states.h:9-19 | a code names a state exactly when it is below 9 |
| FlightDefs.CodeRoundTrip | recovery_team/N4-code/N4-Flight-Software/n4-flight-software/src/states.h:9-19 | state to code to state is the identity, and so is code to state to code for every valid code |
| RingBuffer.RingInit | recovery_team/N4-code/N4-Flight-Software/n4-flight-software/src/ring_buffer.cpp:9-13 | init zeroes both indices and the length and leaves the slots alone |
| RingBuffer.RingPut | recovery_team/N4-code/N4-Flight-Software/n4-flight-software/src/ring_buffer.cpp:15-27 | put stores d in slot write_index mod 5 and changes no other slot; the write index becomes that slot plus one; the length grows by one, saturating at 5 |
| RingBuffer.RingGet | recovery_team/N4-code/N4-Flight-Software/n4-flight-software/src/ring_buffer.cpp:29-35 | get returns slot read_index mod 5 and advances the read index past it; the length drops by one, and from 0 it wraps to 255 |
| RingBuffer.RingFlush | recovery_team/N4-code/N4-Flight-Software/n4-flight-software/src/ring_buffer.cpp:49-54 | flush zeroes the indices, the length and all five slots (the memset covers exactly the float array at the start of the struct) |
| RingBuffer.Contents | recovery_team/N4-code/N4-Flight-Software/n4-flight-software/src/ring_buffer.h:14-20 | the queue view of the buffer holds exactly buffer_length values |
| RingBuffer.InitIsEmpty | recovery_team/N4-code/N4-Flight-Software/n4-flight-software/src/ring_buffer.cpp:9-13 | after init the buffer is an aligned, empty queue |
| RingBuffer.PutAppends | recovery_team/N4-code/N4-Flight-Software/n4-flight-software/src/ring_buffer.cpp:15-27 | a put on a buffer that is not full appends d to the queue |
| RingBuffer.PutOnFullOverwritesHead | recovery_team/N4-code/N4-Flight-Software/n4-flight-software/src/ring_buffer.cpp:15-27 | a put on a full buffer keeps the length at 5 and overwrites the head, so the next get returns d and the queue is no longer in FIFO order |
| RingBuffer.GetPopsHead | recovery_team/N4-code/N4-Flight-Software/n4-flight-software/src/ring_buffer.cpp:29-35 | a get on a non-empty buffer returns the head of the queue and leaves its tail |
| RingBuffer.FifoOrder | recovery_team/N4-code/N4-Flight-Software/n4-flight-software/src/ring_buffer.cpp:15-35 | over any sequence of puts and gets that never overfills or underflows, the old contents followed by the values put equal the values got followed by the new contents |
| RingBuffer.GetsFollowPutOrder | recovery_team/N4-code/N4-Flight-Software/n4-flight-software/src/ring_buffer.cpp:15-35 | from empty, the values got are a prefix of the values put |
| RingBuffer.PutsSaturate | recovery_team/N4-code/N4-Flight-Software/n4-flight-software/src/ring_buffer.cpp:21-25 | after n puts the length is the old length plus n, capped at 5 |
| RingBuffer.RingBuffer.constructor | recovery_team/N4-code/N4-Flight-Software/n4-flight-software/src/main.cpp:158 | the global ring starts with zeroed slots, indices and length |
| RingBuffer.RingBuffer.Init | recovery_team/N4-code/N4-Flight-Software/n4-flight-software/src/ring_buffer.cpp:9-13 | the in-place init has the effect of RingInit |
| RingBuffer.RingBuffer.Put | recovery_team/N4-code/N4-Flight-Software/n4-flight-software/src/ring_buffer.cpp:15-27 | the in-place put has the effect of RingPut on the array and the indices |
| RingBuffer.RingBuffer.Get | recovery_team/N4-code/N4-Flight-Software/n4-flight-software/src/ring_buffer.cpp:29-35 | the in-place get returns RingGet's value and leaves its state |
| RingBuffer.RingBuffer.Available | recovery_team/N4-code/N4-Flight-Software/n4-flight-software/src/ring_buffer.cpp:37-39 | available is the stored length |
| RingBuffer.RingBuffer.Empty | recovery_team/N4-code/N4-Flight-Software/n4-flight-software/src/ring_buffer.cpp:41-43 | empty holds exactly when the length is 0 |
| RingBuffer.RingBuffer.Full | recovery_team/N4-code/N4-Flight-Software/n4-flight-software/src/ring_buffer.cpp:45-47 | full holds exactly when the length is 5 |
| RingBuffer.RingBuffer.Flush | recovery_team/N4-code/N4-Flight-Software/n4-flight-software/src/ring_buffer.cpp:49-54 | the in-place flush has the effect of RingFlush |
| FlightStep.Boot | recovery_team/N4-code/N4-Flight-Software/n4-flight-software/src/main.cpp:158-164 | the state machine starts in PRE_FLIGHT_GROUND with both flags clear, oldest_val 0 and an empty ring |
| FlightStep.Evaluate | recovery_team/N4-code/N4-Flight-Software/n4-flight-software/src/main.cpp:574-632 | one pass assigns one phase state before apogee, or the phase state then APOGEE, DROGUE_DEPLOY and DROGUE_DESCENT when apogee fires; after apogee it assigns at most two of MAIN_DEPLOY, MAIN_DESCENT and POST_FLIGHT_GROUND, with MAIN_DEPLOY exactly when main_eject_flag newly sets; the flags never clear and the final state is the last state assigned |
| FlightStep.LaunchWindowNeverBounds | recovery_team/N4-code/N4-Flight-Software/n4-flight-software/src/main.cpp:581 | the chained comparison `10 < a < 30` is true for every altitude, including 1000 m, where the mathematical reading is false |
| FlightStep.PrePhaseRule | recovery_team/N4-code/N4-Flight-Software/n4-flight-software/src/main.cpp:577-585 | before apogee the first state assigned is PRE_FLIGHT_GROUND below 10 m and POWERED_FLIGHT from 10 m up; without a trigger it is also the final state |
| FlightStep.ApogeeTrigger | recovery_team/N4-code/N4-Flight-Software/n4-flight-software/src/main.cpp:590-611 | apogee fires exactly when apogee_flag is clear and the window's oldest value exceeds a by at least 5; apogee_val is then trunc(oldest + (oldest - a)/2), and APOGEE, DROGUE_DEPLOY and DROGUE_DESCENT follow in that order |
| FlightStep.MainDeployGate | recovery_team/N4-code/N4-Flight-Software/n4-flight-software/src/main.cpp:615-626 | after apogee the gate `(10 <= a) <= apogee_val` gives MAIN_DEPLOY and sets main_eject_flag the first time, and MAIN_DESCENT later; no drogue state is assigned again |
| FlightStep.MainGateOpenForPositiveApogee | recovery_team/N4-code/N4-Flight-Software/n4-flight-software/src/main.cpp:615 | with apogee_val of at least 1 the gate is open at every altitude |
| FlightStep.LandingDetected | recovery_team/N4-code/N4-Flight-Software/n4-flight-software/src/main.cpp:628-631 | after apogee an altitude below 10 m ends the pass in POST_FLIGHT_GROUND |
| FlightStep.TransientStates | recovery_team/N4-code/N4-Flight-Software/n4-flight-software/src/main.cpp:587 | no pass assigns COASTING, and a pass ends in APOGEE or DROGUE_DEPLOY only if it assigned nothing and started there |
| FlightStep.Run | recovery_team/N4-code/N4-Flight-Software/n4-flight-software/src/main.cpp:567-637 | a run of passes over successive altitudes keeps the state machine's variables valid |
| FlightStep.ApogeeAtMostOnce | recovery_team/N4-code/N4-Flight-Software/n4-flight-software/src/main.cpp:596-611 | in any run, APOGEE is assigned once if the run sets apogee_flag and never otherwise, and the flag is never cleared |
| FlightStep.MainDeployAtMostOnce | recovery_team/N4-code/N4-Flight-Software/n4-flight-software/src/main.cpp:615-626 | in any run, MAIN_DEPLOY is assigned once if the run sets main_eject_flag and never otherwise; main_eject_flag implies apogee_flag throughout |
| FlightStep.MainDeployStepCount | recovery_team/N4-code/N4-Flight-Software/n4-flight-software/src/main.cpp:614-626 | a single pass assigns MAIN_DEPLOY once if it newly sets main_eject_flag and never otherwise |
| FlightStep.PreApogeeNoMain | recovery_team/N4-code/N4-Flight-Software/n4-flight-software/src/main.cpp:574-612 | a pass before apogee never assigns MAIN_DEPLOY and leaves main_eject_flag alone |
| FlightStep.PostApogeeMainCount | recovery_team/N4-code/N4-Flight-Software/n4-flight-software/src/main.cpp:614-632 | a pass after apogee assigns MAIN_DEPLOY once if main_eject_flag newly sets, never otherwise |
| FlightStep.MainDeployAfterApogee | recovery_team/N4-code/N4-Flight-Software/n4-flight-software/src/main.cpp:574-632 | in a run that starts before apogee, apogee_flag ends set exactly when APOGEE was assigned, and every MAIN_DEPLOY comes after an APOGEE |
| FlightStep.NeverCoasting | recovery_team/N4-code/N4-Flight-Software/n4-flight-software/src/main.cpp:577-587 | no run ever assigns COASTING |
| FlightStep.WindowInvariant | recovery_team/N4-code/N4-Flight-Software/n4-flight-software/src/main.cpp:590-593 | before apogee the ring holds the last min(n, 4) altitudes in order, and oldest_val is the altitude received four samples before the latest once there have been five (0 before that) |
| FlightStep.ApogeeWindow | recovery_team/N4-code/N4-Flight-Software/n4-flight-software/src/main.cpp:590-596 | in the pass that may detect apogee, the value compared with a is the altitude received four samples earlier, or 0 for the first four samples |
| FlightStep.NoFalseApogee | recovery_team/N4-code/N4-Flight-Software/n4-flight-software/src/main.cpp:590-611 | if the first four altitudes are above -5 m (they are compared with the initial 0) and no later one is 5 m or more below the one four samples earlier, apogee is never detected |
| FlightStep.DescentScenario | recovery_team/N4-code/N4-Flight-Software/n4-flight-software/src/main.cpp:574-632 | from boot the altitudes 0, 5, 20, 200, 199, 150, 5 assign the phase states, then APOGEE, DROGUE_DEPLOY and DROGUE_DESCENT on the seventh sample, with apogee_val 27 |
| FlightStep.ScenarioClimb | recovery_team/N4-code/N4-Flight-Software/n4-flight-software/src/main.cpp:577-593 | the first six altitudes of that scenario assign only their phase states and do not detect apogee |
| FlightStep.RunPhases | recovery_team/N4-code/N4-Flight-Software/n4-flight-software/src/main.cpp:577-585 | a run that has not detected apogee assigns exactly one phase state per altitude: PRE_FLIGHT_GROUND below 10 m, POWERED_FLIGHT otherwise |
| FlightComputer.CallbackAction | recovery_team/N4-code/N4-Flight-Software/n4-flight-software/src/main.cpp:649-706 | the callback fires the drogue exactly in DROGUE_DEPLOY and the main exactly in MAIN_DEPLOY, both only in armed mode, and does nothing in safe mode |
| FlightComputer.DrogueInvisibleBetweenEvaluations | recovery_team/N4-code/N4-Flight-Software/n4-flight-software/src/main.cpp:671-677 | a pass that does not start in DROGUE_DEPLOY never leaves the state there, so a callback between passes cannot fire the drogue |
| FlightComputer.MainFiresOnlyAfterApogee | recovery_team/N4-code/N4-Flight-Software/n4-flight-software/src/main.cpp:684-689 | if the callback fires the main after a run from before apogee, the run is armed and assigned MAIN_DEPLOY and APOGEE |
| FlightComputer.RunFinalState | recovery_team/N4-code/N4-Flight-Software/n4-flight-software/src/main.cpp:567-637 | the state after a run is the initial state or a state the run assigned |
| FlightComputer.CommandEffect | recovery_team/N4-code/N4-Flight-Software/n4-flight-software/src/main.cpp:198-221 | on topic n4/commands, ARM arms the pyros and sets flight mode, and DISARM disarms them and sets safe mode; every other topic or command (RESET included) changes nothing |
| FlightComputer.CommandIdempotent | recovery_team/N4-code/N4-Flight-Software/n4-flight-software/src/main.cpp:198-221 | applying the same command twice has the effect of applying it once |
| FlightComputer.LastModeCommandWins | recovery_team/N4-code/N4-Flight-Software/n4-flight-software/src/main.cpp:198-221 | after a sequence of commands, the arming state is that of the last ARM or DISARM command |
| FlightComputer.NoModeCommandKeepsState | recovery_team/N4-code/N4-Flight-Software/n4-flight-software/src/main.cpp:198-221 | a sequence without ARM or DISARM leaves the arming state unchanged |
| FlightComputer.FlightComputer.constructor | recovery_team/N4-code/N4-Flight-Software/n4-flight-software/src/main.cpp:61-62 | the flight computer boots in safe mode with the switch low and the state machine at Boot |
| FlightComputer.FlightComputer.ArmPyros | recovery_team/N4-code/N4-Flight-Software/n4-flight-software/src/main.cpp:48-51 | arm_pyros drives the remote switch high and changes nothing else |
| FlightComputer.FlightComputer.DisarmPyros | recovery_team/N4-code/N4-Flight-Software/n4-flight-software/src/main.cpp:56-58 | disarm_pyros drives the remote switch low and changes nothing else |
| FlightComputer.FlightComputer.MqttCommandProcessor | recovery_team/N4-code/N4-Flight-Software/n4-flight-software/src/main.cpp:198-221 | the command changes the arming state as CommandEffect says, and leaves the state machine alone |
| FlightComputer.FlightComputer.CheckFlightState | recovery_team/N4-code/N4-Flight-Software/n4-flight-software/src/main.cpp:567-637 | one loop pass over the globals and the ring object has the effect of Evaluate and returns its trace |
| FlightComputer.FlightComputer.CheckBeforeApogee | recovery_team/N4-code/N4-Flight-Software/n4-flight-software/src/main.cpp:574-612 | the pre-apogee branch, run in place, has the effect of the pre-apogee part of Evaluate |
| FlightComputer.FlightComputer.UpdateApogeeWindow | recovery_team/N4-code/N4-Flight-Software/n4-flight-software/src/main.cpp:590-593 | the put, the pop when four values are held, and oldest_val together have the effect of the window update, and nothing else changes |
| FlightComputer.FlightComputer.CheckAfterApogee | recovery_team/N4-code/N4-Flight-Software/n4-flight-software/src/main.cpp:614-632 | the post-apogee branch, run in place, has the effect of the post-apogee part of Evaluate |
| FlightComputer.FlightComputer.FlightStateCallback | recovery_team/N4-code/N4-Flight-Software/n4-flight-software/src/main.cpp:646-710 | the callback acts on the current state and mode as CallbackAction says |
| KalmanFilter.Initial | recovery_team/N4-code/N4-Flight-Software/n4-flight-software/src/kalman_filter.cpp:3-7 | the filter starts with a positive covariance |
| KalmanFilter.GainBounds | recovery_team/N4-code/N4-Flight-Software/n4-flight-software/src/main.cpp:541-549 | for a positive covariance the gain lies strictly between 0 and 1, and the updated covariance equals the measurement variance times the gain |
| KalmanFilter.Update | recovery_team/N4-code/N4-Flight-Software/n4-flight-software/src/main.cpp:541-549 | one update moves the estimate toward the measurement without passing it, shrinking the error by the factor 1 - gain, and leaves a covariance between 0 and the measurement variance |
| KalmanFilter.Updates | recovery_team/N4-code/N4-Flight-Software/n4-flight-software/src/main.cpp:541-549 | after any non-empty sequence of measurements the covariance is positive |
| KalmanFilter.ConstantMeasurementApproaches | recovery_team/N4-code/N4-Flight-Software/n4-flight-software/src/main.cpp:541-549 | fed a constant measurement, the estimate's distance to it never grows and the covariance stays strictly between 0 and the measurement variance |
| KalmanFilter.AltitudeFilter.constructor | recovery_team/N4-code/N4-Flight-Software/n4-flight-software/src/kalman_filter.cpp:3-7 | the filter object starts in the initial estimate |
| KalmanFilter.AltitudeFilter.Filter | recovery_team/N4-code/N4-Flight-Software/n4-flight-software/src/main.cpp:541-549 | kalmanFilter updates the filter's globals as Update says and returns the new estimate |
| Decimal.NatToString | recovery_team/N4-code/N4-Flight-Software/n4-flight-software/src/system_logger.cpp:21-23 | a natural number prints as one or more digits with no leading zero |
| Decimal.IntToString | recovery_team/N4-code/N4-Flight-Software/n4-flight-software/src/system_logger.cpp:21-23 | an integer prints as digits with an optional leading minus |
| Decimal.NatRoundTrip | recovery_team/N4-code/N4-Flight-Software/n4-flight-software/src/system_logger.cpp:21-23 | reading the digits of a natural number back gives the number |
| Decimal.IntRoundTrip | recovery_team/N4-code/N4-Flight-Software/n4-flight-software/src/system_logger.cpp:21-23 | reading `%d`'s rendering of an integer back gives the integer |
| SystemLogger.LogLevelString | recovery_team/N4-code/N4-Flight-Software/n4-flight-software/src/system_logger.cpp:95-129 | every level name, UNKNOWN included, is free of ':' and newlines, so it cannot break the line format |
| SystemLogger.LevelOfString | recovery_team/N4-code/N4-Flight-Software/n4-flight-software/src/system_log_levels.h:16-22 | a name read back is one of the five levels |
| SystemLogger.LevelNamesDistinct | recovery_team/N4-code/N4-Flight-Software/n4-flight-software/src/system_logger.cpp:95-129 | the five levels have distinct names that read back to the level, and any other level prints as UNKNOWN |
| SystemLogger.SplitAtColon | recovery_team/N4-code/N4-Flight-Software/n4-flight-software/src/system_logger.cpp:21-22 | cutting a line at its first ':' gives a ':'-free head, and the line is head + ':' + tail |
| SystemLogger.LogLineRoundTrip | recovery_team/N4-code/N4-Flight-Software/n4-flight-software/src/system_logger.cpp:21-27 | a log line whose client has no ':' parses back to the signed timestamp, the client, the level name and the message |
| SystemLogger.LogEffect | recovery_team/N4-code/N4-Flight-Software/n4-flight-software/src/system_logger.cpp:30-67 | WRITE mode replaces the file by the line and APPEND mode appends it, subject to a short write; a failed open or any other mode changes nothing; other files never change |
| SystemLogger.AppendsAccumulate | recovery_team/N4-code/N4-Flight-Software/n4-flight-software/src/system_logger.cpp:50-65 | successful full appends leave the file holding its old contents followed by the lines in order |
| SystemLogger.WriteThenAppends | recovery_team/N4-code/N4-Flight-Software/n4-flight-software/src/system_logger.cpp:30-65 | a WRITE followed by appends leaves exactly the lines since the WRITE, so the file holds no earlier data |
| SystemLogger.FileSystem.constructor | recovery_team/N4-code/N4-Flight-Software/n4-flight-software/src/system_logger.cpp:13 | the file system starts with the files given |
| SystemLogger.FileSystem.LogToFile | recovery_team/N4-code/N4-Flight-Software/n4-flight-software/src/system_logger.cpp:13-68 | logToFile formats the line and changes the files as LogEffect says |
| Strings.Split | recovery_team/N4-code/N4-Basestation/src/routes/logService.cjs:85 | `split(',')` gives at least one piece, and no piece holds a comma |
| Strings.JoinSplit | recovery_team/N4-code/N4-Basestation/src/routes/logService.cjs:85 | joining the pieces of a split gives back the line |
| Strings.SplitJoin | recovery_team/N4-code/N4-Basestation/src/routes/logService.cjs:85 | splitting the join of comma-free fields gives back the fields |
| Strings.SplitFree | recovery_team/N4-code/N4-Basestation/src/routes/logService.cjs:85 | a comma-free line splits into itself |
| Strings.SplitPrefix | recovery_team/N4-code/N4-Basestation/src/routes/logService.cjs:85 | a comma-free head before a comma becomes the first piece |
| Strings.SplitAppend | recovery_team/N4-code/N4-Basestation/src/routes/logService.cjs:85 | a comma-free tail after a comma becomes the last piece |
| JsText.TrimStart | recovery_team/N4-code/N4-Basestation/src/routes/logService.cjs:84 | trimming the start leaves a suffix that is empty or starts with a non-whitespace character |
| JsText.TrimEnd | recovery_team/N4-code/N4-Basestation/src/routes/logService.cjs:84 | trimming the end leaves a prefix that is empty or ends with a non-whitespace character |
| JsText.TrimEmpty | recovery_team/N4-code/N4-Basestation/src/routes/telemetryService.cjs:86 | `!line.trim()` skips a line exactly when every character of it is whitespace |
| JsText.Pad2 | recovery_team/N4-code/N4-Basestation/src/routes/telemetryService.cjs:23 | `padStart(2, '0')` gives at least two digits, and exactly two for a number below 100 |
| JsText.Pad2RoundTrip | recovery_team/N4-code/N4-Basestation/src/routes/telemetryService.cjs:23 | the padded digits read back as the number |
| JsText.RelativeIndex | recovery_team/N4-code/N4-Basestation/src/routes/telemetryService.cjs:119 | slice's index rule: a negative index counts from the end and is clamped at 0, and an index past the end is clamped to the length |
| JsText.Slice | recovery_team/N4-code/N4-Basestation/src/routes/telemetryService.cjs:119 | `slice(start, end)` has end - start elements after both are resolved (none when they cross), the k-th being the element at start + k; with indices in range it is a[start..end] |
| JsText.SpliceCount | recovery_team/N4-code/N4-Basestation/src/utils/LogHandler.js:51 | `splice(0, count)` removes none for a count of 0 or less, count entries when count is at most the length, and the whole queue when count is at least the length |
| JsText.CeilDiv | recovery_team/N4-code/N4-Basestation/src/routes/telemetryService.cjs:122 | `Math.ceil(n / limit)` is the least number of pages of size limit that cover n |
| JsText.NumberOr | recovery_team/N4-code/N4-Basestation/src/utils/LogHandler.js:4-7 | the or-default on a number gives x when x is given and non-zero, otherwise d |
| JsText.RealOr | recovery_team/N4-code/N4-Basestation/src/utils/LogHandler.js:6 | the or-default on a fractional number gives x when x is given and non-zero, otherwise d |
| JsText.StringOr | recovery_team/N4-code/N4-Basestation/src/utils/LogHandler.js:5 | the or-default on a string gives x when x is given and non-empty, otherwise d |
| DataRecovery.HeaderHasFifteenColumns | recovery_team/N4-code/N4-Flight-Software/flight-data-recovery/n4-data-recovery-code/src/main.cpp:123 | the CSV header has fifteen comma-free column names, which splitting recovers |
| DataRecovery.RowOf | recovery_team/N4-code/N4-Flight-Software/flight-data-recovery/n4-data-recovery-code/src/main.cpp:131-159 | a record prints as fifteen values, record_number first |
| DataRecovery.RowMatchesHeader | recovery_team/N4-code/N4-Flight-Software/flight-data-recovery/n4-data-recovery-code/src/main.cpp:123-159 | the value in each column of a row is the record's field that the header names |
| DataRecovery.FirstSentinel | recovery_team/N4-code/N4-Flight-Software/flight-data-recovery/n4-data-recovery-code/src/main.cpp:130 | the position of the first record numbered 0xFFFFFFFF holds the sentinel, and no earlier record does |
| DataRecovery.Rows | recovery_team/N4-code/N4-Flight-Software/flight-data-recovery/n4-data-recovery-code/src/main.cpp:131-159 | the rows of a sequence of records are the rows of each record, in order |
| DataRecovery.DumpRows | recovery_team/N4-code/N4-Flight-Software/flight-data-recovery/n4-data-recovery-code/src/main.cpp:112-167 | for a file that opens, the header is the fourth line and is followed by exactly one row per record before the first sentinel, none of them the sentinel; for one that does not, only text lines and no header are printed |
| DataRecovery.Blanks | recovery_team/N4-code/N4-Flight-Software/flight-data-recovery/n4-data-recovery-code/src/main.cpp:95-99 | spaces(num) prints num spaces, or none when num is not positive |
| DataRecovery.ListingAligned | recovery_team/N4-code/N4-Flight-Software/flight-data-recovery/n4-data-recovery-code/src/main.cpp:82-88 | a file name of at most 20 characters is padded so that its size starts at column 24 |
| DataRecovery.ListingOutput | recovery_team/N4-code/N4-Flight-Software/flight-data-recovery/n4-data-recovery-code/src/main.cpp:72-93 | the listing is the title line and then one line per file, in directory order |
| DataRecovery.CommandRules | recovery_team/N4-code/N4-Flight-Software/flight-data-recovery/n4-data-recovery-code/src/main.cpp:43-69 | only 'd' advances the dump file number; CR and LF print nothing; every other character ends with the menu |
| DataRecovery.Recovery.constructor | recovery_team/N4-code/N4-Flight-Software/flight-data-recovery/n4-data-recovery-code/src/main.cpp:14 | the tool starts with dump file number 1 and an empty console |
| DataRecovery.Recovery.DumpOneRecording | recovery_team/N4-code/N4-Flight-Software/flight-data-recovery/n4-data-recovery-code/src/main.cpp:112-167 | the do/while dump prints exactly DumpOutput |
| DataRecovery.Recovery.DumpRecords | recovery_team/N4-code/N4-Flight-Software/flight-data-recovery/n4-data-recovery-code/src/main.cpp:125-161 | the read loop prints the rows of the records before the first sentinel |
| DataRecovery.Recovery.ListFiles | recovery_team/N4-code/N4-Flight-Software/flight-data-recovery/n4-data-recovery-code/src/main.cpp:72-93 | the readdir loop prints ListingOutput |
| DataRecovery.Recovery.ShowMenu | recovery_team/N4-code/N4-Flight-Software/flight-data-recovery/n4-data-recovery-code/src/main.cpp:103-109 | the menu prints its four lines |
| DataRecovery.Recovery.CheckForSerialCommand | recovery_team/N4-code/N4-Flight-Software/flight-data-recovery/n4-data-recovery-code/src/main.cpp:43-69 | with no character available nothing happens; otherwise the console and the file number change as CommandOutput and the 'd' increment say |
| SidebarUtils.Antenna | recovery_team/N4-code/N4-Basestation/src/utils/sidebarUtils.js:16-20 | a NaN altitude gives undefined and every other altitude gives a band |
| SidebarUtils.AntennaBands | recovery_team/N4-code/N4-Basestation/src/utils/sidebarUtils.js:16-20 | A-1 exactly below 1000 m, A-2 exactly from 1000 m to below 2000 m, A-3 exactly from 2000 m |
| SidebarUtils.AntennaMonotone | recovery_team/N4-code/N4-Basestation/src/utils/sidebarUtils.js:16-20 | a higher altitude never gives a lower band |
| SidebarUtils.StatusOf | recovery_team/N4-code/N4-Basestation/src/utils/sidebarUtils.js:23-42 | every state value gets a colour |
| SidebarUtils.StatusesInOrder | recovery_team/N4-code/N4-Basestation/src/utils/sidebarUtils.js:25-38 | codes 0 to 6 show Pre Flight, Powered Flight, Apogee, Drogue Deployed, Main Deployed, Rocket Descent and Post Flight, all distinct |
| SidebarUtils.DefaultStatusRule | recovery_team/N4-code/N4-Basestation/src/utils/sidebarUtils.js:39-40 | a value shows the default status exactly when it is not one of the case labels 0 to 6 |
| SidebarUtils.FlightCodesAsShown | recovery_team/N4-code/N4-Basestation/src/utils/sidebarUtils.js:23-42 | the flight computer's codes show: PRE_FLIGHT_GROUND (0) "Pre Flight", POWERED_FLIGHT (1) "Powered Flight", COASTING (2) "Apogee", APOGEE (3) "Drogue Deployed", DROGUE_DEPLOY (4) "Main Deployed", DROGUE_DESCENT (5) "Rocket Descent", MAIN_DEPLOY (6) "Post Flight", and MAIN_DESCENT (7) and POST_FLIGHT_GROUND (8) the default status |
| BatchSend.Batch | recovery_team/N4-code/N4-Basestation/src/utils/LogHandler.js:51 | the batch is the first min(batchSize, length) entries of the queue, clamped at 0 |
| BatchSend.Rest | recovery_team/N4-code/N4-Basestation/src/utils/LogHandler.js:51 | the queue is the batch followed by what splice leaves |
| BatchSend.GuardIsNoOp | recovery_team/N4-code/N4-Basestation/src/utils/LogHandler.js:48 | with an empty queue or a send in flight, a send changes nothing and sends nothing |
| BatchSend.DeliveredLeavesRest | recovery_team/N4-code/N4-Basestation/src/utils/LogHandler.js:50-64 | a delivered send sends the first min(batchSize, n) entries in order and leaves exactly the rest |
| BatchSend.FullQueueGoesWhole | recovery_team/N4-code/N4-Basestation/src/utils/LogHandler.js:23-25 | the send made when the queue reaches batchSize takes the whole queue, and when it is delivered the queue is empty |
| BatchSend.UnreachableRestores | recovery_team/N4-code/N4-Basestation/src/utils/LogHandler.js:70-73 | when fetch throws, the batch is put back and the queue is as before |
| BatchSend.RejectedDuplicatesBatch | recovery_team/N4-code/N4-Basestation/src/utils/LogHandler.js:65-68 | a not-ok response puts the batch in front of the whole old queue, duplicating it |
| BatchSend.NothingLost | recovery_team/N4-code/N4-Basestation/src/utils/LogHandler.js:47-77 | whatever the outcome, the old queue is what was sent followed by a tail of the new queue |
| BatchSend.RejectionsGrowQueue | recovery_team/N4-code/N4-Basestation/src/utils/LogHandler.js:65-68 | n rejected sends in a row grow a non-empty queue by at least n entries |
| BatchSend.Rejections | recovery_team/N4-code/N4-Basestation/src/utils/LogHandler.js:65-68 | repeated rejected sends never shrink the queue |
| LogHandling.Stamped | recovery_team/N4-code/N4-Basestation/src/utils/LogHandler.js:16-19 | the queued entry is the log with its timestamp set to now and every other field kept |
| LogHandling.LogHandler.constructor | recovery_team/N4-code/N4-Basestation/src/utils/LogHandler.js:3-13 | the defaults are maxUiLogs 10, the default endpoint, retention 7 days and batch size 50, each taken when the option is falsy; the queue starts empty and no send is in flight |
| LogHandling.LogHandler.HandleNewLog | recovery_team/N4-code/N4-Basestation/src/utils/LogHandler.js:15-29 | the stamped log is queued, a send happens when the queue reaches batchSize, and the log is returned unchanged |
| LogHandling.LogHandler.ManageUiLogs | recovery_team/N4-code/N4-Basestation/src/utils/LogHandler.js:32-35 | the new log goes first and the list is cut to maxUiLogs, with slice's rule for a negative maxUiLogs |
| LogHandling.LogHandler.SendLogs | recovery_team/N4-code/N4-Basestation/src/utils/LogHandler.js:47-77 | sendLogs posts the batch to the hard-coded URL, leaves the queue as AfterSend says, and clears isSending unless the guard skipped |
| LogHandling.Reversed | recovery_team/N4-code/N4-Basestation/src/utils/LogHandler.js:33 | the reverse of a sequence has its elements in the opposite order |
| LogHandling.UiShowsNewestFirst | recovery_team/N4-code/N4-Basestation/src/utils/LogHandler.js:32-35 | with a positive maxUiLogs, the UI list after a sequence of logs is the newest maxUiLogs logs, newest first |
| TelemetryHandling.TelemetryHandler.constructor | recovery_team/N4-code/N4-Basestation/src/utils/telemetryHandler.js:2-10 | the defaults are the default endpoint, retention 7 days and batch size 100; the queue starts empty |
| TelemetryHandling.TelemetryHandler.HandleNewTelemetry | recovery_team/N4-code/N4-Basestation/src/utils/telemetryHandler.js:20-26 | the entry is queued as it is, and a send happens when the queue reaches batchSize |
| TelemetryHandling.TelemetryHandler.SendTelemetry | recovery_team/N4-code/N4-Basestation/src/utils/telemetryHandler.js:28-56 | sendTelemetry posts the batch to apiEndpoint, leaves the queue as AfterSend says, and clears isSending unless the guard skipped |
| ServiceCommon.DatedFileNameFields | recovery_team/N4-code/N4-Basestation/src/routes/telemetryService.cjs:21-25 | the daily file name is the prefix, the year, the two-digit month (getMonth() + 1) and the two-digit day, then ".csv" |
| ServiceCommon.DatedFileNameInjective | recovery_team/N4-code/N4-Basestation/src/routes/telemetryService.cjs:21-25 | different days give different file names, and every name ends in ".csv" |
| ServiceCommon.Surviving | recovery_team/N4-code/N4-Basestation/src/routes/telemetryService.cjs:53-71 | rotation never adds a file |
| ServiceCommon.RotationRule | recovery_team/N4-code/N4-Basestation/src/routes/telemetryService.cjs:57-69 | a file survives rotation exactly when it is not strictly older than the retention period in days, or its unlink fails |
| ServiceCommon.RemoveExpired | recovery_team/N4-code/N4-Basestation/src/routes/telemetryService.cjs:57-70 | the rotation loop leaves exactly the surviving files |
| ServiceCommon.CollectEntries | recovery_team/N4-code/N4-Basestation/src/routes/telemetryService.cjs:78-111 | the nested read loop collects exactly the entries Collected describes |
| ServiceCommon.CollectLines | recovery_team/N4-code/N4-Basestation/src/routes/telemetryService.cjs:85-110 | the loop over one file's lines collects the parsed, kept entries of its non-blank lines, in order |
| ServiceCommon.LineEntriesSound | recovery_team/N4-code/N4-Basestation/src/routes/telemetryService.cjs:85-110 | each collected entry passes the filter and is the parse of a non-blank line |
| ServiceCommon.LineEntriesComplete | recovery_team/N4-code/N4-Basestation/src/routes/telemetryService.cjs:85-110 | every non-blank line whose entry passes the filter is collected |
| ServiceCommon.CollectedSound | recovery_team/N4-code/N4-Basestation/src/routes/telemetryService.cjs:78-111 | each collected entry passes the filter and comes from a non-blank data line, after the header, of a ".csv" file |
| ServiceCommon.CollectedComplete | recovery_team/N4-code/N4-Basestation/src/routes/telemetryService.cjs:78-111 | every kept line of every ".csv" file is collected |
| ServiceCommon.Insert | recovery_team/N4-code/N4-Basestation/src/routes/telemetryService.cjs:113 | inserting into a newest-first list keeps it newest first and adds exactly that element |
| ServiceCommon.InsertKeepsSameTime | recovery_team/N4-code/N4-Basestation/src/routes/telemetryService.cjs:113 | the inserted entry comes after every entry of its own time that is already in the list |
| ServiceCommon.SortNewestFirst | recovery_team/N4-code/N4-Basestation/src/routes/telemetryService.cjs:113 | the sort gives a newest-first permutation of its input |
| ServiceCommon.SortStable | recovery_team/N4-code/N4-Basestation/src/routes/telemetryService.cjs:113 | the sort is stable: the entries of any one time, valid or invalid, come out in their input order |
| ServiceCommon.PageContents | recovery_team/N4-code/N4-Basestation/src/routes/telemetryService.cjs:115-123 | page p holds the entries from (p - 1) * limit up to p * limit, at most limit of them; total is the count and totalPages is ceil(total / limit) |
| ServiceCommon.PagesPartition | recovery_team/N4-code/N4-Basestation/src/routes/telemetryService.cjs:115-123 | pages 1 to totalPages, laid end to end, are exactly all the entries |
| ServiceCommon.FirstPagesPrefix | recovery_team/N4-code/N4-Basestation/src/routes/telemetryService.cjs:115-119 | the first k pages laid end to end are the first k * limit entries |
| ServiceCommon.PageOfSorted | recovery_team/N4-code/N4-Basestation/src/routes/telemetryService.cjs:113-119 | every entry on a page is one of the collected entries |
| ServiceCommon.PageNewestFirst | recovery_team/N4-code/N4-Basestation/src/routes/telemetryService.cjs:113-119 | every page is newest first |
| ServiceCommon.Field | recovery_team/N4-code/N4-Basestation/src/routes/telemetryService.cjs:87-88 | destructuring a split line gives field i when there is one, and undefined otherwise |
| ServiceCommon.OrDefault | recovery_team/N4-code/N4-Basestation/src/routes/telemetryService.cjs:74 | a destructuring default replaces only a missing option |
| ServiceCommon.DateBoundsInclusive | recovery_team/N4-code/N4-Basestation/src/routes/telemetryService.cjs:104-105 | with both dates given and valid, a valid timestamp passes exactly when it lies between them, bounds included; an invalid one always passes |
| TelemetryServing.TelemetryPageSound | recovery_team/N4-code/N4-Basestation/src/routes/telemetryService.cjs:73-124 | every entry returned passes the filters and is the entry of a non-blank data line of a ".csv" file |
| TelemetryServing.TelemetryPageShape | recovery_team/N4-code/N4-Basestation/src/routes/telemetryService.cjs:113-123 | the page is newest first, holds at most limit entries (default 100), reports the page asked for (default 1), and total counts every entry kept |
| TelemetryServing.TelemetryLineReported | recovery_team/N4-code/N4-Basestation/src/routes/telemetryService.cjs:85-113 | every kept line of every ".csv" file is among the sorted entries |
| TelemetryServing.AltitudeBounds | recovery_team/N4-code/N4-Basestation/src/routes/telemetryService.cjs:106-107 | the altitude bounds are inclusive, a bound of 0 or none is off, and a NaN altitude passes both |
| TelemetryServing.FalsyOptionsKeepAll | recovery_team/N4-code/N4-Basestation/src/routes/telemetryService.cjs:104-107 | with every filter option falsy, no entry is dropped |
| TelemetryServing.PositionalFields | recovery_team/N4-code/N4-Basestation/src/routes/telemetryService.cjs:87-102 | a line of eleven comma-free fields gives the entry of those fields in column order, each parsed by parseInt or parseFloat as its column says |
| TelemetryServing.TelemetryService.constructor | recovery_team/N4-code/N4-Basestation/src/routes/telemetryService.cjs:15-19 | the service starts over the directory listing given |
| TelemetryServing.TelemetryService.RotateTelemetry | recovery_team/N4-code/N4-Basestation/src/routes/telemetryService.cjs:53-71 | rotateTelemetry leaves exactly the surviving files |
| TelemetryServing.TelemetryService.GetTelemetry | recovery_team/N4-code/N4-Basestation/src/routes/telemetryService.cjs:73-124 | getTelemetry returns TelemetryPage for the query: the filtered records sorted newest first by the stable SortNewestFirst, then paged |
| LogServing.LevelFilterExact | recovery_team/N4-code/N4-Basestation/src/routes/logService.cjs:87 | with a level given, a record is kept only if its level is exactly that level, and a record of that level inside the dates is kept |
| LogServing.FalsyOptionsKeepAll | recovery_team/N4-code/N4-Basestation/src/routes/logService.cjs:87-89 | without a level or date bound, every record is kept |
| LogServing.LogPageSound | recovery_team/N4-code/N4-Basestation/src/routes/logService.cjs:71-107 | every record returned passes the filters and is the record of a non-blank data line of a ".csv" file |
| LogServing.LogPageShape | recovery_team/N4-code/N4-Basestation/src/routes/logService.cjs:96-106 | the page is newest first, holds at most limit records (default 50), reports the page asked for (default 1), and total counts every record kept |
| LogServing.PositionalFields | recovery_team/N4-code/N4-Basestation/src/routes/logService.cjs:85-91 | a line of six comma-free fields gives the record timestamp, level, source, message, action, status in that order |
| LogServing.CommaInMessageShifts | recovery_team/N4-code/N4-Basestation/src/routes/logService.cjs:85 | a comma in the message cuts it: its rest becomes the action, the action becomes the status, and the real status is lost |
| LogServing.LogService.constructor | recovery_team/N4-code/N4-Basestation/src/routes/logService.cjs:21-25 | the service starts over the directory listing given |
| LogServing.LogService.RotateLogs | recovery_team/N4-code/N4-Basestation/src/routes/logService.cjs:51-69 | rotateLogs leaves exactly the surviving files |
| LogServing.LogService.GetLogs | recovery_team/N4-code/N4-Basestation/src/routes/logService.cjs:71-107 | getLogs returns LogPage for the query: the filtered logs sorted newest first by the stable SortNewestFirst, then paged |

## Left out

- **FreeRTOS.** The tasks and queues, and the sensor, GPS, WiFi and MQTT connection code, are left out. `checkFlightState` is modelled as one loop pass per altitude received, and the calls between passes as separate methods.
- **Floating point.** Floats and doubles are modelled as reals, with no rounding or NaN on the flight computer. C's float-to-int conversion is modelled explicitly.
- **Pyro outputs.** The deploy actions are returned as values. Their bodies in the source are commented out, and the LED and buzzer calls are left out.
- **Switch pin.** The remote switch pin is modelled as a boolean that starts low. Its initial level comes from setup, which is not part of this model.
- **Log buffer.** `sprintf` into the 256-byte buffer is modelled as building the string. Overflow of that buffer is not modelled, and neither are `millis()` as a clock (the timestamp is a parameter) or `f.print`'s count (the number of bytes written is a parameter).
- **Recovery-tool number rendering.** The file listing renders each size in decimal with `NatToString`. The dump's rows are not rendered: they hold the numbers themselves, and the serial library's formatting of them is not modelled.
- **Recovery-tool file name buffer.** The 64-byte `filename` buffer of `listFiles` is not modelled. The directory and the flash file's records are parameters.
- DataRecovery.Recovery.DumpOneRecording: requires that an opened file contain a sentinel record, because the source's do/while loop never ends on a file without one.
- **Other flight-computer files.** The system logger's `readLogFile`, the MPU and WiFi code, and the other files of the firmware are not part of this model.
- **Base-station timers and concurrency.** `startLogBatching`, `startTelemetryBatching` and their `setInterval` timers are left out. So is the interleaving of callbacks during an `await`: each send is modelled as if it ran to completion.
- **Fetching.** `fetchLogs` and `fetchTelemetry` are not part of this model.
- **Base-station parameters.** The fetch outcome, the current time and `new Date()` are parameters.
- **`saveLogs` and `saveTelemetry`.** The CSV writer library, `path.join`, `mkdir` and the HTTP routes are left out.
- **JavaScript parsers.** `parseInt`, `parseFloat` and `Date` parsing are parameters. NaN and an invalid date are `None`.
- **Query coercion.** The routes pass `req.query` values through as strings (telemetryService.cjs:144, logService.cjs:127), and the model takes the options as numbers. Three consequences of the strings are not modelled:
  - the string-to-number coercion of `page` and `limit` in `(page - 1) * limit`;
  - a `minAltitude` or `maxAltitude` of "0" is a non-empty string, so it is truthy and switches the filter on, while a numeric 0 (`TruthyNumber`) leaves it off;
  - with a string `limit`, `startIndex + limit` (telemetryService.cjs:116, logService.cjs:99) concatenates: page "2" with limit "10" gives `slice(10, "1010")`, which returns up to 1000 entries rather than 10. This looks like a defect in the routes, which are not part of this model.
- TelemetryServing.TelemetryPage: requires that a given limit be positive. With a limit of 0, JavaScript's `Math.ceil(n / 0)` is Infinity, which the model does not represent.
- LogServing.LogPage: requires that a given limit be positive, for the same reason.
- ServiceCommon.SortNewestFirst: the JavaScript comparator returns NaN for an invalid date, so JavaScript leaves the place of invalid dates to the engine. The model puts them last, in their input order. Among valid dates the sort is stable, as JavaScript's is.
- FlightComputer.CommandEffect: compares the characters of the topic and the command, which is what the code evidently means. `mqtt_command_processor` compares `char*` pointers with `==` (main.cpp:201, 203 and 210). As written, the command comes from the `c_str()` of a fresh `String` (main.cpp:899-906), so it never equals the literal's address: ARM and DISARM never take effect, operation_mode stays 0, and no charge ever fires.
- **Other base-station parts.** JSON key order and the React components are not modelled.
- BatchSend.RejectionsGrowQueue: states the lower bound `|queue| + n` rather than the exact length. Each rejection adds a whole batch, and the batch size depends on the queue at that moment.
- **The Kalman filter task.** `kalmanFilterTask` never calls `kalmanFilter`, so the filter is modelled as a function the firmware could call.
