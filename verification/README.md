# Safety core: verified model

This project models the safety core of a mobile robot and proves properties of the model. `dafny verify dfyconfig.toml`
checks all of it.

Six connected parts are modelled. Doubles are finite reals; nanoseconds, counters and bytes are bounded integers with
the wrap-around the source has.

| part | files |
|---|---|
| Stop profiles, trajectory validator, safety envelope | `StopProfile`, `EmergencyStop`, `JerkLimitedStop`, `SmoothTravel`, `ClaimPeak`, `TrajectoryValidator`, `SafetyEnvelope`, `StopSafety` |
| Seqlock sensor buffers | `Seqlock` |
| Bounded EKF | `BoundedEkf` |
| Mode machine, monitor, recovery manager, speed ramp, supervisor node | `ModeMachine`, `SafetyMonitor`, `SensorRecovery`, `SpeedLimit`, `SupervisorNode` |
| Drive bridge, and the bridge together with the supervisor | `DriveBridge`, `ControlSystem` |
| Task executor, sliding-window sensor metrics | `TaskExecutor`, `SensorMetrics` |

`Numeric` holds shared arithmetic.

A component that the source updates in place is a class. Each of its methods is proved against a function on values
(`View() == Apply(old(View()), ...)`), and the theorems are about that function, over every input and every run.
Lemmas called `...Decides` or `...Meaning` fix what each operation does with its thresholds written out. The seqlock
is a state machine over single memory steps of one writer and any number of readers.

## Main results

- Stop profiles. Both generators succeed exactly when their step count is below the capacity, and then the buffer holds
  exactly the specified profile. The plain stop conserves `2·D·x + v²` up to its last period, so it travels the ideal
  `v²/2D` and wastes at most `D·dt²/8`. The jerk-limited stop takes fewer than twice the periods firm braking would, keeps
  its jerk limit, and dominates the plain one in speed and distance at every instant. A potential that none of its
  periods raises bounds its travel: no further than coasting for the ramp and half a period and then braking at
  `D - min(D, J·dt)/2`.
- Validator against generator. Three samples decide, whatever the latency and the planned braking: the plain profile is
  accepted if and only if its first sample is, the sample that claims most ground fits, and the stop ends a buffer short
  of the obstacle. With planned braking at most `D` the two ends decide, with half a period of latency the first sample
  alone; `StopSafety.LatencyIsNeeded` shows that with less it does not. For the jerk-limited profile the same holds of
  what an obstacle adds, with planned braking up to the mean deceleration.
- Seqlock. In every interleaving, and with fields stored and copied in any order, each sample that `read` returns is one
  complete write, no older than the last write completed before the call, and no reader goes back in time, unless an
  attempt spans a positive multiple of 2^31 writes. Exactly then the retry test can be fooled, and a run that does so
  returns a torn sample (`Seqlock.TornRead`).
- EKF. Estimate and covariance stay in their boxes and the covariance stays symmetric over every run. Prediction never
  lowers the determinant and a correction multiplies it by `r/s`. Over every run the covariance stays positive
  semidefinite if and only if no clamp cuts one variance alone against too large a cross term.
- Supervisor. Over every sequence of callbacks: SafeStop if and only if a fault is latched, a requested stop means
  SafeStop, SafeStop is left only by a clear-fault request, the limit is at most half while a sensor is held to be
  DEGRADED. Five conditions on the state before a tick say exactly which ticks end in SafeStop.
- Bridge. While a safe stop stays asserted, whatever else arrives, the published speeds never exceed the measured one and
  are zero once 255 ticks have found the fault flag down. They never rise if and only if no tick that the flag holds
  back from a planned speed is followed by one without the flag, and are all zero if and only if the flag is up at each
  tick or there is nothing to replay.
- Both nodes. With every message of a supervisor tick received on its own, in any order across topics and with losses:
  a tick exceeds the last limit received exactly when it replays a higher speed of the profile, and a stop is published
  as anything but zero exactly when the last stop and state messages disagree and a speed is left. From a tick that ends
  in SafeStop until the fault is cleared, zero is published once its state message, or a later one, has arrived.
- Executor. Each task keeps `next release = first release + runs · period` over every sequence of operations from
  construction on and sees exactly that progression. A call that answers Ok runs it exactly min(allowance, backlog)
  times. A watchdog miss is fail-stop: no later call answers Ok while the watchdog period stays as it is.
- Metrics. Durations telescope; the three percentages sum to 100 if and only if no time was spent in an unknown status.

## Where the code differs from its documentation, or surprises

- `check_timeouts` promises an empty string when no sensor is overdue. A sensor whose own name is empty is timed out but
  reported as the empty string, and the supervisor then does not stop (`SensorRecovery.EmptyAnswerMeansNoneIff`).
- A comment in `process_health_msg` says that degraded messages are ignored "until sensor recovers". Nothing resets
  `timed_out`, so a sensor that timed out and recovered is never held to be DEGRADED again
  (`SensorRecovery.TimedOutForGood`).
- The supervisor node never calls `recover_localization`: LocalizationLost is left only for SafeStop
  (`Supervision.LostHolds`).
- A tick in SafeStop zeroes the speed limit and clearing the fault does not restore it. It stays zero exactly until a
  sensor becomes degraded or the last degraded one recovers (`Supervision.LimitStaysZero`); the first tick outside
  SafeStop after that brings it back to at least half of the maximum (`Supervision.LiftReturnsLimit`).
- The supervisor asserts a stop only together with a latched fault, and the bridge answers a latched fault with zero
  speed. While both flags at the bridge come from the same tick the jerk-limited profile is computed but never replayed
  (`ControlSystem.StopIsImmediate`). When the stop message of a tick overtakes its state message, the profile starts
  although the fault is latched and the limit received is zero (`ControlSystem.StopOvertakesFault`). When a control tick
  falls between the two messages that lift a stop, the old profile starts from the speed measured before the stop
  (`DriveBridging.SplitDeliveryReplays`).
- `transition_to(SafeStop)` is granted with no fault latched, and no request, clear or recovery leaves the SafeStop it
  leads to (`ModeMachine.TransitionMeaning`). The supervisor node always latches first.
- With a clock that does not lag behind `now`, `run_due` answers Ok only if no task is more than one period late, so
  bounded catch-up runs a task at most twice, and twice only when it is late by exactly one period
  (`TaskExecution.CatchUpIsAtMostTwo`).
- The speed hinted in the Warning zone ignores latency; it is within the envelope exactly when coasting takes no more
  than 30% of the room before the buffer (`SafetyEnvelope.WarningHintWithinIff`).

## Model

| member | source | states |
|---|---|---|
| SafetyEnvelope.WithinMeansBuffered | include/safety_core/safety/safety_envelope.hpp:44-57 | a robot within its envelope is never closer than the safety buffer |
| SafetyEnvelope.ZonesSplitTheEnvelope | include/safety_core/safety/safety_envelope.hpp:54-84 | Clear and Warning are exactly the zones within the envelope; Emergency is exactly closer than the buffer |
| SafetyEnvelope.ZonesByThreshold | include/safety_core/safety/safety_envelope.hpp:44-86 | clearance, envelope test, zone and hint by their thresholds: buffer, required clearance, and 1.5 times it |
| SafetyEnvelope.EnvelopeMonotone | include/safety_core/safety/safety_envelope.hpp:44-57 | more room or less speed never leaves the envelope |
| SafetyEnvelope.WarningHintWithinIff | include/safety_core/safety/safety_envelope.hpp:70-79 | the square root hinted in the Warning zone is within the envelope exactly when coasting takes at most 30% of the room |
| StopProfile.AdvanceOrder | src/motion/trajectory.cpp:106 | faster at both ends of a period covers at least as much ground |
| EmergencyStop.SpeedAndTime | src/motion/trajectory.cpp:98-114 | closed form of speed and time after n iterations |
| EmergencyStop.MovingIffBeforeEnd | src/motion/trajectory.cpp:99-114 | the loop runs exactly ceil(v0/(D·dt)) times |
| EmergencyStop.FullStep | src/motion/trajectory.cpp:104-113 | every period but the last takes off the full D·dt |
| EmergencyStop.LastStep | src/motion/trajectory.cpp:104-113 | the last period starts at a speed of at most D·dt and ends at zero |
| EmergencyStop.TerminalSample | src/motion/trajectory.cpp:121 | the terminal sample is what one more iteration would record: at rest, with no acceleration |
| EmergencyStop.EnergyBalance | src/motion/trajectory.cpp:102-114 | 2·D·x + v² = v0² at every sample before the terminal one |
| EmergencyStop.TravelExact | src/motion/trajectory.cpp:102-121 | exact travelled distance, with the waste of the last period |
| EmergencyStop.TravelBounds | src/motion/trajectory.cpp:102-121 | travelled distance lies between v0²/(2D) and v0²/(2D) + D·dt²/8 |
| EmergencyStop.ProfileStarts | src/motion/trajectory.cpp:98-121 | the profile starts from the forward speed and ends at rest |
| EmergencyStop.ProfileRecurrence | src/motion/trajectory.cpp:102-114 | time, speed, acceleration, jerk and distance of each sample from the one before |
| EmergencyStop.Brake | src/motion/trajectory.cpp:104-113 | the loop body records the specified sample and moves to the specified next state |
| EmergencyStop.Generate | src/motion/trajectory.cpp:86-124 | success exactly when the step count is below the capacity; buffer, count and untouched rest in every case |
| JerkLimitedStop.Steer | src/motion/trajectory.cpp:150-182 | the chosen acceleration stays in [-D, 0] |
| JerkLimitedStop.FirmUnlessEasing | src/motion/trajectory.cpp:150-182 | a sample that eases off follows one at full deceleration; every other one brakes by min(D, J·dt)·dt or more |
| JerkLimitedStop.FirmBraking | src/motion/trajectory.cpp:145-193 | at least half of the samples so far braked firmly, and the speed lost accounts for them |
| JerkLimitedStop.StaysStopped | src/motion/trajectory.cpp:187-192 | one period never raises the speed |
| JerkLimitedStop.StoppedInTime | src/motion/trajectory.cpp:145-193 | a robot still moving after n periods has n + 1 below twice the firm step count |
| JerkLimitedStop.MovingIffBeforeEnd | src/motion/trajectory.cpp:145-193 | the loop runs exactly `Steps` times |
| JerkLimitedStop.SpeedFalls | src/motion/trajectory.cpp:187-192 | speed never rises along a run |
| JerkLimitedStop.StepBound | src/motion/trajectory.cpp:145-202 | fewer than 2·ceil(v0/(min(D, J·dt)·dt)) periods, hence success with any larger capacity |
| JerkLimitedStop.ProfileSpeeds | src/motion/trajectory.cpp:184-202 | speeds never rise and are zero exactly at the terminal sample; accelerations lie in [-D, 0] |
| JerkLimitedStop.SteerSmooth | src/motion/trajectory.cpp:150-182 | one decision changes acceleration by at most J·dt and records a jerk of at most J |
| JerkLimitedStop.JerkLimitKept | src/motion/trajectory.cpp:150-184 | consecutive accelerations of a profile differ by at most J·dt up to the terminal sample |
| JerkLimitedStop.ProfileStarts | src/motion/trajectory.cpp:138-200 | the profile starts from the forward speed and ends at rest |
| JerkLimitedStop.ProfileRecurrence | src/motion/trajectory.cpp:145-193 | each sample from the one before: ramping up, holding, and easing off exactly when v·J is at most D² or D at most 1e-9 |
| JerkLimitedStop.Ramp | src/motion/trajectory.cpp:147-182 | the branch structure of the loop computes the specified acceleration and jerk |
| JerkLimitedStop.Brake | src/motion/trajectory.cpp:147-192 | the loop body records the specified sample and moves to the specified next state |
| JerkLimitedStop.Coast | src/motion/trajectory.cpp:187-192 | one period at a given acceleration |
| JerkLimitedStop.Generate | src/motion/trajectory.cpp:126-203 | success exactly when the step count is below the capacity; buffer, count and untouched rest in every case |
| TrajectoryValidation.TrajectoryValidator.constructor | include/safety_core/motion/trajectory.hpp:66-68 | no configuration, jerk limit 5, no obstacle |
| TrajectoryValidation.TrajectoryValidator.ApplyConfig | include/safety_core/motion/trajectory.hpp:47-50 | replaces the envelope only |
| TrajectoryValidation.TrajectoryValidator.SetMaxJerk | include/safety_core/motion/trajectory.hpp:52-55 | a negative jerk limit becomes zero |
| TrajectoryValidation.TrajectoryValidator.SetObstacleDistance | include/safety_core/motion/trajectory.hpp:57-60 | replaces the obstacle distance only |
| TrajectoryValidation.AcceptsMeaning | src/motion/trajectory.cpp:34-83 | accepted if and only if not empty and every sample advances and stays within each limit that applies and the envelope |
| TrajectoryValidation.CheckNamesFirstBroken | src/motion/trajectory.cpp:45-80 | the violation named is the first broken rule: time, distance, speed, acceleration, jerk, envelope |
| TrajectoryValidation.TrajectoryValidator.Validate | src/motion/trajectory.cpp:19-84 | accepts exactly the clean trajectories; otherwise names the first bad sample and the first check it fails |
| StopSafety.ClaimShrinks | src/motion/trajectory.cpp:104-113 | one period of braking at comfort deceleration or more claims no new ground |
| StopSafety.ClaimNeverGrows | src/motion/trajectory.cpp:102-114 | with half a period of latency, x + v·latency + v²/(2c) never exceeds its initial value along a plain profile |
| StopSafety.FullPeriodShrinks | src/motion/trajectory.cpp:104-113 | whatever the latency, a full period claims no new ground |
| StopSafety.ClaimFallsBeforeStop | src/motion/trajectory.cpp:102-114 | whatever the latency, the claim never exceeds its initial value before the terminal sample |
| StopSafety.WithinIffClaimFits | include/safety_core/safety/safety_envelope.hpp:48-57 | within the envelope of an obstacle exactly when the claim plus buffer ends before it |
| StopSafety.FirstIsSharpest | src/motion/trajectory.cpp:104-105 | no sample decelerates harder than the first |
| StopSafety.TerminalFineIff | src/motion/trajectory.cpp:71-80 | after a good first sample the terminal one passes exactly when the stop ends a buffer short of the obstacle |
| ClaimPeak.SlopeSign | src/motion/trajectory.cpp:104-113 | exactly when a full period adds to the ground claimed |
| ClaimPeak.PlainPeakIsHighest | src/motion/trajectory.cpp:102-114 | whatever the latency and planned braking, no sample in motion claims more ground than the computed peak |
| ClaimPeak.GentlePlanPeaksFirst | src/motion/trajectory.cpp:102-114 | with planned braking no sharper than the profile's the peak is the first sample |
| ClaimPeak.RaisedFalls | src/motion/trajectory.cpp:145-193 | past the peak of the ramp no period raises the claim with its easing credit |
| ClaimPeak.SmoothPeakIsHighest | src/motion/trajectory.cpp:145-193 | with planned braking up to the mean deceleration, no sample of a jerk-limited stop in motion claims more than the computed peak |
| StopSafety.PlainProfileAcceptedIff | src/motion/trajectory.cpp:34-83 | accepted if and only if the first sample passes, the peak sample fits and the stop ends a buffer short of the obstacle |
| StopSafety.EndsDecide | src/motion/trajectory.cpp:34-83 | with planned braking no sharper than the profile's, the first sample and the end of the stop decide |
| StopSafety.PlainProfileAccepted | src/motion/trajectory.cpp:34-83 | with half a period of latency, accepted if and only if the first sample passes |
| StopSafety.LatencyIsNeeded | src/motion/trajectory.cpp:71-80 | with less than half a period of latency a slow stop planned at the edge of the envelope is rejected |
| StopSafety.SmoothProfileAccepted | src/motion/trajectory.cpp:34-83 | a request inside the limits yields an accepted jerk-limited profile, if no obstacle is set or it leaves room for the ramp |
| StopSafety.SmoothEndsMustPass | src/motion/trajectory.cpp:71-80 | acceptance needs a good first sample and a stop that ends a buffer short of the obstacle |
| StopSafety.SmoothObstacleIff | src/motion/trajectory.cpp:71-80 | with planned braking up to the mean deceleration, exactly what an obstacle adds: the peak sample and the end must fit |
| SmoothTravel.PeriodCost | src/motion/trajectory.cpp:187-192 | what one period at a given deceleration claims beyond braking at a planned one |
| SmoothTravel.SteerCases | src/motion/trajectory.cpp:150-182 | every decision leads to full deceleration, from it to easing, or along the ramp |
| SmoothTravel.PotentialFalls | src/motion/trajectory.cpp:145-193 | no period raises the potential of claimed ground, ramp delay and easing credit |
| SmoothTravel.SmoothClaimFits | src/motion/trajectory.cpp:145-193 | at every sample the claim stays within the initial one with the ramp added |
| SmoothTravel.SmoothTravelBound | src/motion/trajectory.cpp:145-202 | a stop travels at most what coasting for the ramp and half a period and braking at D - min(D, J·dt)/2 would |
| StopSafety.SmoothDominates | src/motion/trajectory.cpp:145-193 | at every index the jerk-limited stop is at least as fast and as far as the plain one |
| StopSafety.SmoothDistanceGrows | src/motion/trajectory.cpp:187-192 | distance never falls along a jerk-limited run |
| StopSafety.SmoothTakesLonger | src/motion/trajectory.cpp:102-202 | the jerk-limited profile has at least as many samples and ends at least as far |
| StopSafety.BufferKept | include/safety_core/safety/safety_envelope.hpp:48-84 | from Clear or Warning, coasting out the latency and braking leaves the buffer less D·dt²/8 |
| StopSafety.SmoothBufferKept | include/safety_core/safety/safety_envelope.hpp:48-84 | the same for the jerk-limited stop, less what the ramp and half a period cover |
| Seqlock.AcceptedExactly | include/safety_core/platform/sensors/imu_sensor.hpp:61-66 | an attempt is accepted exactly when it began and ended outside a write, a multiple of 2^31 writes apart |
| Seqlock.AcceptedIffUndisturbed | include/safety_core/platform/sensors/imu_sensor.hpp:61-66 | unless it spans a positive multiple of 2^31 writes, accepted exactly when no write overlapped |
| Seqlock.WriterKeeps | include/safety_core/platform/sensors/imu_sensor.hpp:70-75 | counter, memory and history agree after every step |
| Seqlock.AssembledIs | include/safety_core/platform/sensors/imu_sensor.hpp:64 | an undisturbed copy is the last completed write, field by field |
| Seqlock.OwnStepKeeps | include/safety_core/platform/sensors/odometry_sensor.hpp:55-67 | a reader's own step keeps its attempt and its results sound |
| Seqlock.StepKeeps | include/safety_core/platform/sensors/odometry_sensor.hpp:55-74 | every step of writer or reader keeps the invariant |
| Seqlock.RunKeeps | include/safety_core/platform/sensors/odometry_sensor.hpp:55-74 | the invariant over every interleaving |
| Seqlock.IndicesRise | include/safety_core/platform/sensors/imu_sensor.hpp:55-68 | results of one reader come from writes that never go back |
| Seqlock.ReadsAreAtomic | include/safety_core/platform/sensors/imu_sensor.hpp:55-75 | every returned sample is one complete write, as recent as the call requires, and readers never go back |
| Seqlock.TornRead | include/safety_core/platform/sensors/imu_sensor.hpp:61-67 | a reader that sleeps through a multiple of 2^31 writes between two fields returns a sample nobody wrote |
| BoundedEkf.Judge | src/filters/bounded_ekf_filter.cpp:45-61 | an accepted or gated measurement has a positive innovation variance |
| BoundedEkf.PropagateSemidefinite | src/filters/bounded_ekf_filter.cpp:168-179 | prediction keeps semidefiniteness and never lowers the determinant |
| BoundedEkf.ShrinkSemidefinite | src/filters/bounded_ekf_filter.cpp:63-77 | correction keeps semidefiniteness, multiplies the determinant by r/s and raises no variance |
| BoundedEkf.ClampSemidefiniteIff | src/filters/bounded_ekf_filter.cpp:198-226 | exactly when the clamp keeps a semidefinite matrix semidefinite |
| BoundedEkf.CorrectSemidefinite | src/filters/bounded_ekf_filter.cpp:54-81 | a measurement, accepted or not, always keeps the covariance semidefinite |
| BoundedEkf.UncorrectedIff | src/filters/bounded_ekf_filter.cpp:45-61 | exactly which measurements leave the prediction as it is |
| BoundedEkf.MeasurementPulls | src/filters/bounded_ekf_filter.cpp:63-81 | position lands between prediction and measurement; position variance is at most both of theirs |
| BoundedEkf.BoundBringsInto | src/filters/bounded_ekf_filter.cpp:198-246 | each clamp brings its entry to the nearest value in its own box |
| BoundedEkf.PredictFollowsMotion | src/filters/bounded_ekf_filter.cpp:163-183 | prediction is exact on motion with constant acceleration, but for the clamp |
| BoundedEkf.UpdateFollowsMotion | src/filters/bounded_ekf_filter.cpp:34-85 | a filter on such a motion stays on it over a rejected measurement, and is pulled from it by an accepted one |
| BoundedEkf.StampedUpdateFollowsMotion | src/filters/bounded_ekf_filter.cpp:87-152 | the same over the time between stamps; more than ten nominal periods only move the stamp |
| BoundedEkf.PeriodMeaning | src/filters/bounded_ekf_filter.cpp:154-161 | the nominal period is the control period in seconds, or 0.1 |
| BoundedEkf.PropagatedVariance | src/filters/bounded_ekf_filter.cpp:168-179 | the variance of every combination of position and velocity after a prediction |
| BoundedEkf.NoiseFloors | src/filters/bounded_ekf_filter.cpp:173-174 | process noise is at least the variance floor |
| BoundedEkf.AcceptedCorrects | src/filters/bounded_ekf_filter.cpp:63-81 | an accepted measurement satisfies the equations of the Kalman gain, then the clamp |
| BoundedEkf.SetParamsDecides | include/safety_core/filters/bounded_ekf_filter.hpp:35-59 | exactly which parameters are adopted, and what that does |
| BoundedEkf.ResetDecides | src/filters/bounded_ekf_filter.cpp:19-32 | the whole state after a reset |
| BoundedEkf.FlagsDecide | src/filters/bounded_ekf_filter.cpp:45-84 | health and rejection count after each kind of measurement |
| BoundedEkf.ApplyBounded | src/filters/bounded_ekf_filter.cpp:19-152 | every operation keeps all entries in their boxes |
| BoundedEkf.RunBounded | src/filters/bounded_ekf_filter.cpp:19-152 | boxes and symmetry over every run |
| BoundedEkf.PredictSemidefiniteIff | src/filters/bounded_ekf_filter.cpp:163-184 | prediction with its clamp keeps semidefiniteness exactly when the clamp is harmless |
| BoundedEkf.FirstClampedIff | src/filters/bounded_ekf_filter.cpp:163-226 | the first clamp of a step keeps semidefiniteness exactly when it is harmless |
| BoundedEkf.RunSemidefinite | src/filters/bounded_ekf_filter.cpp:34-184 | semidefinite after every run in which no clamp is harmful |
| BoundedEkf.RunSemidefiniteIff | src/filters/bounded_ekf_filter.cpp:34-226 | over every run, semidefinite after each clamp and step if and only if no clamp is harmful |
| BoundedEkf.LongPredictionLosesSemidefinite | src/filters/bounded_ekf_filter.cpp:34-61 | with a long control period, one gated update after a reset loses semidefiniteness |
| BoundedEkf.BoundedEkfFilter.constructor | include/safety_core/filters/bounded_ekf_filter.hpp:93-106 | initial state, inside its boxes |
| BoundedEkf.BoundedEkfFilter.ApplyConfig | include/safety_core/filters/bounded_ekf_filter.hpp:30-33 | replaces the control period only |
| BoundedEkf.BoundedEkfFilter.ClampState | src/filters/bounded_ekf_filter.cpp:198-246 | clamps state and covariance as specified |
| BoundedEkf.BoundedEkfFilter.SetParameters | include/safety_core/filters/bounded_ekf_filter.hpp:35-59 | acceptable parameters are adopted and the state clamped to them, others change nothing |
| BoundedEkf.BoundedEkfFilter.ResetTo | src/filters/bounded_ekf_filter.cpp:19-32 | clamped state, clamped identity covariance, cleared counters |
| BoundedEkf.BoundedEkfFilter.PredictState | src/filters/bounded_ekf_filter.cpp:163-184 | the specified prediction |
| BoundedEkf.BoundedEkfFilter.PropagateEntries | src/filters/bounded_ekf_filter.cpp:168-179 | its covariance part |
| BoundedEkf.BoundedEkfFilter.CorrectState | src/filters/bounded_ekf_filter.cpp:63-81 | the specified correction |
| BoundedEkf.BoundedEkfFilter.ShrinkEntries | src/filters/bounded_ekf_filter.cpp:63-77 | its covariance part |
| BoundedEkf.BoundedEkfFilter.Fuse | src/filters/bounded_ekf_filter.cpp:42-84 | predict, reject, gate or correct; the flag returned is the health flag |
| BoundedEkf.BoundedEkfFilter.Update | src/filters/bounded_ekf_filter.cpp:34-85 | a measurement over one control period |
| BoundedEkf.BoundedEkfFilter.UpdateStamped | src/filters/bounded_ekf_filter.cpp:87-152 | a stamped measurement; a stale one only moves the time stamp |
| ModeMachine.TransitionMeaning | src/state_machine/state_machine.cpp:33-129 | a request keeps the latch invariant exactly unless it is SafeStop without a latched fault, and what leaves that SafeStop |
| ModeMachine.TransitionDecides | src/state_machine/state_machine.cpp:131-163 | from which modes each mode is entered, with and without a latched fault |
| ModeMachine.ModeStateMachine.TransitionTo | src/state_machine/state_machine.cpp:33-64 | granted exactly by latch and table; a refused request changes nothing |
| ModeMachine.ModeStateMachine.LatchFault | src/state_machine/state_machine.cpp:66-73 | latch, code and SafeStop together |
| ModeMachine.ModeStateMachine.ClearFault | src/state_machine/state_machine.cpp:75-96 | Idle without a fault if one was latched, otherwise refused |
| ModeMachine.ModeStateMachine.RequestObstacleHold | src/state_machine/state_machine.cpp:98-101 | a request for AvoidingObstacle, and its answer |
| ModeMachine.ModeStateMachine.ReportLocalizationLost | src/state_machine/state_machine.cpp:103-106 | a request for LocalizationLost, and its answer |
| ModeMachine.ModeStateMachine.RecoverLocalization | src/state_machine/state_machine.cpp:108-129 | LocalizationLost becomes Degraded, any other mode is refused |
| SafetyMonitor.SafetySupervisor.ProcessMonitorEvent | src/safety/safety_supervisor.cpp:71-86 | effect and status of every severity, with and without a machine |
| SafetyMonitor.AgeDecides | src/safety/safety_supervisor.cpp:109-124 | nothing up to the timeout, Degraded past it, a latched fault 1002 from twice it on |
| SafetyMonitor.ClockDecides | src/safety/safety_supervisor.cpp:88-107 | a latched fault 1001 exactly when the clock goes back |
| SafetyMonitor.DropsDecide | src/safety/safety_supervisor.cpp:126-147 | a latched fault 1003 exactly from the critical threshold on |
| SafetyMonitor.DegradeFailsIff | src/safety/safety_supervisor.cpp:155-172 | when a request to degrade is answered with a fault |
| SafetyMonitor.SafetySupervisor.ObserveClockSample | src/safety/safety_supervisor.cpp:88-107 | a clock that goes back latches a fault; the sample is remembered |
| SafetyMonitor.SafetySupervisor.ObserveLocalizationAge | src/safety/safety_supervisor.cpp:109-124 | past the timeout degrades, past twice the timeout (mod 2^64) latches |
| SafetyMonitor.SafetySupervisor.ObserveTransportDrops | src/safety/safety_supervisor.cpp:126-147 | drop thresholds, zero meaning disabled |
| SensorRecovery.CheckTakesOne | ros2/src/safety_core_ros/include/safety_core_ros/sensor_recovery_manager.hpp:163-187 | for any walking order a check times out exactly one overdue sensor, or changes nothing |
| SensorRecovery.DrainEmpties | ros2/src/safety_core_ros/include/safety_core_ros/sensor_recovery_manager.hpp:163-187 | one call per overdue sensor leaves none overdue |
| SensorRecovery.EmptyAnswerMeansNoneIff | ros2/src/safety_core_ros/include/safety_core_ros/sensor_recovery_manager.hpp:65-71 | an empty answer means none overdue exactly when no overdue sensor has an empty name |
| SensorRecovery.CheckTouchesOne | ros2/src/safety_core_ros/include/safety_core_ros/sensor_recovery_manager.hpp:166-185 | a record is changed by a check only when it is overdue |
| SensorRecovery.AllTracked | ros2/src/safety_core_ros/include/safety_core_ros/sensor_recovery_manager.hpp:110-187 | over every history a record agrees with what was reported |
| SensorRecovery.DegradedSpell | ros2/src/safety_core_ros/include/safety_core_ros/sensor_recovery_manager.hpp:110-187 | DEGRADED has a start time exactly when not timed out, and that start is when the spell began |
| SensorRecovery.ReportDecides | ros2/src/safety_core_ros/include/safety_core_ros/sensor_recovery_manager.hpp:110-161 | record and transition after a report, by what was held before |
| SensorRecovery.CheckDecides | ros2/src/safety_core_ros/include/safety_core_ros/sensor_recovery_manager.hpp:163-187 | a check reports a sensor whose degraded spell outlasts the timeout, marks it alone, and reports none only if no spell does |
| SensorRecovery.TimedOutForGood | ros2/src/safety_core_ros/include/safety_core_ros/sensor_recovery_manager.hpp:130-143 | a sensor that timed out and left DEGRADED is never DEGRADED again |
| SensorRecovery.SensorRecoveryManager.ProcessHealth | ros2/src/safety_core_ros/include/safety_core_ros/sensor_recovery_manager.hpp:110-161 | new record and reported transition for every report |
| SensorRecovery.SensorRecoveryManager.CheckForTimeouts | ros2/src/safety_core_ros/include/safety_core_ros/sensor_recovery_manager.hpp:163-187 | the loop times out the first overdue sensor in its walking order |
| SensorRecovery.SensorRecoveryManager.UpdateSummary | ros2/src/safety_core_ros/include/safety_core_ros/sensor_recovery_manager.hpp:189-193 | worst status and its time, nothing else |
| SensorRecovery.SensorRecoveryManager.IsAnyDegraded | ros2/src/safety_core_ros/include/safety_core_ros/sensor_recovery_manager.hpp:195-206 | true exactly when some tracked sensor is DEGRADED |
| SpeedLimit.RampOrder | ros2/src/safety_core_ros/include/safety_core_ros/speed_limit_controller.hpp:53-56 | the ramp runs from half to full speed and rises with time |
| SpeedLimit.UpdateSound | ros2/src/safety_core_ros/include/safety_core_ros/speed_limit_controller.hpp:33-65 | the limit stays in [0, max], and half stays half |
| SpeedLimit.RampRises | ros2/src/safety_core_ros/include/safety_core_ros/speed_limit_controller.hpp:43-58 | the limit of a running ramp never falls and ends at the maximum |
| SpeedLimit.UpdateDecides | ros2/src/safety_core_ros/include/safety_core_ros/speed_limit_controller.hpp:33-65 | zero, target, maximum, or a linear rise from half of the maximum |
| SpeedLimit.SpeedLimitController.UpdateLimit | ros2/src/safety_core_ros/include/safety_core_ros/speed_limit_controller.hpp:33-65 | the specified update, and the limit is returned |
| SpeedLimit.SpeedLimitController.Degrade | ros2/src/safety_core_ros/include/safety_core_ros/speed_limit_controller.hpp:68-73 | half speed at once, any ramp cancelled |
| SpeedLimit.SpeedLimitController.Recover | ros2/src/safety_core_ros/include/safety_core_ros/speed_limit_controller.hpp:76-80 | a ramp to the maximum starts now |
| Supervision.StepKeeps | ros2/src/safety_core_ros/src/safety_supervisor_node.cpp:142-482 | every callback keeps the invariant |
| Supervision.RunKeeps | ros2/src/safety_core_ros/src/safety_supervisor_node.cpp:142-482 | latch, request flag, unreachable modes and limit, over every sequence of callbacks |
| Supervision.RunFromStart | ros2/src/safety_core_ros/src/safety_supervisor_node.cpp:106-128 | the same from construction |
| Supervision.SafeStopExit | ros2/src/safety_core_ros/src/safety_supervisor_node.cpp:464-482 | SafeStop is left exactly by a clear-fault request, into Idle with the flag down |
| Supervision.SafeStopHolds | ros2/src/safety_core_ros/src/safety_supervisor_node.cpp:149-415 | SafeStop persists over every run without such a request |
| Supervision.TickStopsIff | ros2/src/safety_core_ros/src/safety_supervisor_node.cpp:200-225 | a tick ends in SafeStop exactly for one of five reasons visible before it |
| Supervision.StaleOdometryTick | ros2/src/safety_core_ros/src/safety_supervisor_node.cpp:333-352 | stale odometry ends a tick in LocalizationLost, or in SafeStop for cause |
| Supervision.LostOnlyToSafeStop | ros2/src/safety_core_ros/src/safety_supervisor_node.cpp:142-482 | no callback recovers localization |
| Supervision.LostHolds | ros2/src/safety_core_ros/src/safety_supervisor_node.cpp:142-482 | LocalizationLost or SafeStop persists over every run without a clear-fault request |
| Supervision.GroundedUntilLifted | ros2/src/safety_core_ros/src/safety_supervisor_node.cpp:354-389 | a zero limit with nothing under way stays so exactly through events that lift nothing |
| Supervision.LimitStaysZero | ros2/src/safety_core_ros/src/safety_supervisor_node.cpp:417-421 | after a tick in SafeStop the limit stays zero exactly until a sensor becomes degraded or the last degraded one recovers |
| Supervision.LiftReturnsLimit | ros2/src/safety_core_ros/src/safety_supervisor_node.cpp:354-389 | after such an event the first tick outside SafeStop leaves at least half of the maximum |
| Supervision.TickPublishesFault | ros2/src/safety_core_ros/src/safety_supervisor_node.cpp:435-462 | the published fault flag is exact and a stop is never published without it |
| Supervision.EnvelopeDecides | ros2/src/safety_core_ros/src/safety_supervisor_node.cpp:149-198 | the mode after an envelope message, by zone and mode, from every state |
| Supervision.OdometryDecides | ros2/src/safety_core_ros/src/safety_supervisor_node.cpp:142-147 | the stamp in nanoseconds modulo 2^64 |
| Supervision.HealthDecides | ros2/src/safety_core_ros/src/safety_supervisor_node.cpp:248-269 | mode, degraded flag and limit after a health message |
| Supervision.LocalizationDecides | ros2/src/safety_core_ros/src/safety_supervisor_node.cpp:333-352 | the machine after the localization check, by age |
| Supervision.SummaryDecides | ros2/src/safety_core_ros/src/safety_supervisor_node.cpp:271-331 | mode and flags after the summary check, by age and status |
| Supervision.TickModeDecides | ros2/src/safety_core_ros/src/safety_supervisor_node.cpp:200-225 | the mode after a tick that stops for no reason |
| Supervision.TickFaultDecides | ros2/src/safety_core_ros/src/safety_supervisor_node.cpp:200-225 | the fault code and stop request after a tick that stops |
| Supervision.TickRestDecides | ros2/src/safety_core_ros/src/safety_supervisor_node.cpp:200-225 | limit, clock and sensor records after a tick |
| Supervision.PublishedDecides | ros2/src/safety_core_ros/src/safety_supervisor_node.cpp:435-462 | the mode published is the one the tick began with; limit, flags and zone are those it ends with |
| Supervision.ClearDecides | ros2/src/safety_core_ros/src/safety_supervisor_node.cpp:464-482 | the whole effect of a clear-fault request |
| Supervision.SupervisorNode.constructor | ros2/src/safety_core_ros/src/safety_supervisor_node.cpp:101-128 | Idle, no fault, full limit |
| Supervision.SupervisorNode.HandleZoneTransition | ros2/src/safety_core_ros/src/safety_supervisor_node.cpp:166-198 | the effect of each zone |
| Supervision.SupervisorNode.EnvelopeMessage | ros2/src/safety_core_ros/src/safety_supervisor_node.cpp:149-164 | an envelope message |
| Supervision.SupervisorNode.OdometryMessage | ros2/src/safety_core_ros/src/safety_supervisor_node.cpp:142-147 | an odometry stamp, modulo 2^64 |
| Supervision.SupervisorNode.HealthMessage | ros2/src/safety_core_ros/src/safety_supervisor_node.cpp:248-269 | a summary, a degradation, a recovery or nothing |
| Supervision.SupervisorNode.CheckLocalizationStaleness | ros2/src/safety_core_ros/src/safety_supervisor_node.cpp:333-352 | the localization check of a tick |
| Supervision.SupervisorNode.CheckHealthSummary | ros2/src/safety_core_ros/src/safety_supervisor_node.cpp:271-331 | the health-summary check of a tick |
| Supervision.SupervisorNode.CheckSensorRecoveryTimeouts | ros2/src/safety_core_ros/src/safety_supervisor_node.cpp:396-415 | the timeout check of a tick |
| Supervision.SupervisorNode.TimerTick | ros2/src/safety_core_ros/src/safety_supervisor_node.cpp:200-225 | a whole tick, and what it publishes, with the mode it began with |
| Supervision.SupervisorNode.ClearFaultRequest | ros2/src/safety_core_ros/src/safety_supervisor_node.cpp:464-482 | succeeds exactly when a fault is latched |
| DriveBridging.StepKeeps | ros2/src/safety_core_ros/src/safety_drive_bridge_node.cpp:105-207 | limits received are never negative, and what is left of a profile falls to rest |
| DriveBridging.ForwardedWithinLimits | ros2/src/safety_core_ros/src/safety_drive_bridge_node.cpp:183-192 | forwarded commands respect all limits; a command that already does is unchanged |
| DriveBridging.Remembers | ros2/src/safety_core_ros/src/safety_drive_bridge_node.cpp:105-152 | after every run the bridge holds what it last received on each topic |
| DriveBridging.TickForwards | ros2/src/safety_core_ros/src/safety_drive_bridge_node.cpp:183-262 | without flags a tick forwards the nearest command inside the limits to the last one received, if fresh, and zero otherwise |
| DriveBridging.TickHalts | ros2/src/safety_core_ros/src/safety_drive_bridge_node.cpp:224-229 | a tick under the fault flag publishes zero |
| DriveBridging.StopPlanFalls | ros2/src/safety_core_ros/src/safety_drive_bridge_node.cpp:154-172 | the plan starts at the measured speed, falls, ends at zero and fits 256 entries |
| DriveBridging.StopRun | ros2/src/safety_core_ros/src/safety_drive_bridge_node.cpp:194-239 | a stop whose fault flag does not fall plays its remaining plan and then zero |
| DriveBridging.HeldStopStops | ros2/src/safety_core_ros/src/safety_drive_bridge_node.cpp:126-239 | while the fault flag does not fall, speeds never rise and are zero from the 256th tick on |
| DriveBridging.SafeStopStops | ros2/src/safety_core_ros/src/safety_drive_bridge_node.cpp:126-239 | whatever the fault flag does, speeds stay within the measured one, and never rise exactly when no held-back tick is followed by one without the flag |
| DriveBridging.SafeStopEnds | ros2/src/safety_core_ros/src/safety_drive_bridge_node.cpp:194-239 | zero once 255 ticks have found the fault flag down |
| DriveBridging.ReplaysProfile | ros2/src/safety_core_ros/src/safety_drive_bridge_node.cpp:154-207 | which sample of the profile from the speed at the edge each tick of a stop publishes |
| DriveBridging.RecoveryLimitIff | ros2/src/safety_core_ros/src/safety_drive_bridge_node.cpp:183-239 | the recovery limit holds exactly unless a tick replays a speed above it |
| DriveBridging.FaultFreezesPlan | ros2/src/safety_core_ros/src/safety_drive_bridge_node.cpp:224-229 | while the fault flag is up at every tick, whatever else arrives, a stop publishes zero and its profile waits |
| DriveBridging.StopIsZeroIff | ros2/src/safety_core_ros/src/safety_drive_bridge_node.cpp:194-239 | a stop publishes only zeros if and only if the fault flag is up at each tick or there is nothing to replay |
| DriveBridging.SplitDeliveryReplays | ros2/src/safety_core_ros/src/safety_drive_bridge_node.cpp:194-239 | a control tick between the two release messages replays the old profile from its start |
| DriveBridging.DriveBridge.constructor | ros2/src/safety_core_ros/src/safety_drive_bridge_node.cpp:17-65 | initial state of the bridge |
| DriveBridging.DriveBridge.NavCommand | ros2/src/safety_core_ros/src/safety_drive_bridge_node.cpp:105-109 | remembers command and time |
| DriveBridging.DriveBridge.EnvelopeStatus | ros2/src/safety_core_ros/src/safety_drive_bridge_node.cpp:111-124 | in Clear the parameter ceiling, otherwise the recommendation |
| DriveBridging.DriveBridge.SafeStopMessage | ros2/src/safety_core_ros/src/safety_drive_bridge_node.cpp:126-137 | plans on the rising edge only, drops the plan on release |
| DriveBridging.DriveBridge.StartJerkLimitedStop | ros2/src/safety_core_ros/src/safety_drive_bridge_node.cpp:154-172 | fills the buffer with the jerk-limited profile, or leaves no plan |
| DriveBridging.DriveBridge.StateMessage | ros2/src/safety_core_ros/src/safety_drive_bridge_node.cpp:139-142 | remembers the fault flag |
| DriveBridging.DriveBridge.OdometryMessage | ros2/src/safety_core_ros/src/safety_drive_bridge_node.cpp:144-147 | remembers the forward speed |
| DriveBridging.DriveBridge.RecoverySpeedLimit | ros2/src/safety_core_ros/src/safety_drive_bridge_node.cpp:149-152 | a negative limit becomes zero |
| DriveBridging.DriveBridge.ExecuteStopProfile | ros2/src/safety_core_ros/src/safety_drive_bridge_node.cpp:194-207 | publishes the next planned speed, within the buffer, or nothing |
| DriveBridging.DriveBridge.Tick | ros2/src/safety_core_ros/src/safety_drive_bridge_node.cpp:217-262 | fault before stop before freshness before forwarding |
| ControlSystem.RunKeeps | ros2/src/safety_core_ros/src/safety_supervisor_node.cpp:435-462 | in every run with messages received one by one, the bridge holds what it last received, limits lie in [0, max] and a stop comes with the fault flag |
| ControlSystem.StopIsImmediate | ros2/src/safety_core_ros/src/safety_drive_bridge_node.cpp:224-239 | a stop is published as anything but zero exactly when the last stop and state messages disagree and a speed is left |
| ControlSystem.StopLasts | ros2/src/safety_core_ros/src/safety_drive_bridge_node.cpp:224-229 | from a tick that ends in SafeStop until a fault is cleared, zero once its state message or a later one has arrived |
| ControlSystem.LimitBindsIff | ros2/src/safety_core_ros/src/safety_drive_bridge_node.cpp:183-239 | a tick exceeds the last limit received exactly when it replays a higher speed of the profile |
| ControlSystem.TickSends | ros2/src/safety_core_ros/src/safety_supervisor_node.cpp:417-462 | what a tick sends about the limit and the latch |
| ControlSystem.LimitBindsBridge | ros2/src/safety_core_ros/src/safety_drive_bridge_node.cpp:183-239 | until the next tick, exactly when a speed exceeds the limit of a tick that has arrived; that limit is half of the maximum when degraded; zero in SafeStop |
| ControlSystem.StopOvertakesFault | ros2/src/safety_core_ros/src/safety_drive_bridge_node.cpp:194-239 | a run in which the stop message overtakes its state message and the bridge publishes the measured speed under a limit of zero |
| TaskExecution.BacklogMeaning | include/safety_core/exec/task_executor.hpp:134-137 | the backlog counts exactly the releases due by now |
| TaskExecution.SlotProgress | include/safety_core/exec/task_executor.hpp:137-203 | however a slot ends, its releases are in order, one period apart, due, and none is lost |
| TaskExecution.SlotQuota | include/safety_core/exec/task_executor.hpp:137-203 | a slot not given up on runs min(allowance, backlog) times |
| TaskExecution.SlotDecides | include/safety_core/exec/task_executor.hpp:137-203 | every run of a slot is due, in range and in time, and it stops for the first reason not to go on, written out |
| TaskExecution.RunFrom | include/safety_core/exec/task_executor.hpp:128-212 | a run keeps the number of slots and halts at one it visits |
| TaskExecution.RunSkips | include/safety_core/exec/task_executor.hpp:128-133 | unused slots and those behind a halt are left alone |
| TaskExecution.RunPasses | include/safety_core/exec/task_executor.hpp:128-212 | every other slot gets exactly one pass of the inner loop |
| TaskExecution.OkMeansNoHalt | include/safety_core/exec/task_executor.hpp:126-213 | a call answers Ok if and only if it gave up on no slot |
| TaskExecution.CallDecides | include/safety_core/exec/task_executor.hpp:126-213 | every used slot up to the one that halts the call is run as it may be, and no other |
| TaskExecution.AnswerDecides | include/safety_core/exec/task_executor.hpp:141-189 | the answer for each reason to halt |
| TaskExecution.RunKeepsSchedule | include/safety_core/exec/task_executor.hpp:126-213 | one run keeps every slot on its schedule |
| TaskExecution.ApplyKeeps | include/safety_core/exec/task_executor.hpp:51-213 | every operation keeps every slot on its schedule, and keeps period and first release |
| TaskExecution.RunsKeepSchedule | include/safety_core/exec/task_executor.hpp:51-213 | no drift, no loss and no overflow over every sequence of operations |
| TaskExecution.LifeKeepsSchedule | include/safety_core/exec/task_executor.hpp:39-213 | the same from construction: releases run, period and next release of every slot |
| TaskExecution.AddedTaskStarts | include/safety_core/exec/task_executor.hpp:92-118 | a task taken starts one period from now in an unused slot and disturbs no other |
| TaskExecution.AddDecides | include/safety_core/exec/task_executor.hpp:75-124 | when a task is taken, each refusal, and that a refusal changes nothing |
| TaskExecution.SettingsDecide | include/safety_core/exec/task_executor.hpp:51-73 | policy, limit and configuration as adopted |
| TaskExecution.CompletedRunsQuota | include/safety_core/exec/task_executor.hpp:126-213 | a call that answers Ok runs every slot min(allowance, backlog) times |
| TaskExecution.CompletedMeansPunctual | include/safety_core/exec/task_executor.hpp:180-189 | with a clock that does not lag, a call that answers Ok had no task more than one period late |
| TaskExecution.CatchUpIsAtMostTwo | include/safety_core/exec/task_executor.hpp:180-202 | such a call runs a due task once, or twice exactly when it is late by one period and two runs are allowed |
| TaskExecution.WatchdogStalls | include/safety_core/exec/task_executor.hpp:152-159 | a watchdog report answers with a deadline miss and leaves its slot too late for the watchdog |
| TaskExecution.StalledBlocks | include/safety_core/exec/task_executor.hpp:128-159 | no later call completes or touches a stalled slot or one behind it |
| TaskExecution.WatchdogIsFinal | include/safety_core/exec/task_executor.hpp:126-213 | after a watchdog miss no later call answers Ok while the watchdog period stays as it is, and no slot from the missed one on runs, filled later or not |
| TaskExecution.WatchdogReportIsFinal | include/safety_core/exec/task_executor.hpp:126-213 | the same from the call that reports the miss |
| TaskExecution.TaskExecutor.constructor | include/safety_core/exec/task_executor.hpp:39 | an empty executor |
| TaskExecution.TaskExecutor.SetCatchUpPolicy | include/safety_core/exec/task_executor.hpp:51-55 | a zero limit becomes one |
| TaskExecution.TaskExecutor.Configure | include/safety_core/exec/task_executor.hpp:57-73 | refused when more tasks are configured than fit |
| TaskExecution.TaskExecutor.Add | include/safety_core/exec/task_executor.hpp:75-124 | Ok exactly when the task exists, its period is positive and fits, and a slot is free; which refusal otherwise |
| TaskExecution.TaskExecutor.RunOne | include/safety_core/exec/task_executor.hpp:136-203 | the inner loop equals its recursive specification |
| TaskExecution.TaskExecutor.RunSlots | include/safety_core/exec/task_executor.hpp:128-212 | the outer loop equals its recursive specification |
| TaskExecution.TaskExecutor.Run | include/safety_core/exec/task_executor.hpp:126-213 | slots, calls and status of a whole call |
| SensorMetrics.PruneKeepsWindow | ros2/src/safety_core_ros/src/sensor_monitor_node.cpp:119-129 | for stamps that never go back, pruning keeps exactly the entries inside the window |
| SensorMetrics.CutoffMeaning | ros2/src/safety_core_ros/src/sensor_monitor_node.cpp:121-122 | an entry is kept exactly while it is no older than the window |
| SensorMetrics.DurationsTelescope | ros2/src/safety_core_ros/src/sensor_monitor_node.cpp:305-316 | durations telescope to the next stamp, or to now, less the first stamp |
| SensorMetrics.TimesFillWindow | ros2/src/safety_core_ros/src/sensor_monitor_node.cpp:305-331 | the three times and the unknown rest fill the window exactly |
| SensorMetrics.PercentagesSum | ros2/src/safety_core_ros/src/sensor_monitor_node.cpp:339-347 | percentages lie in [0, 100] and sum to 100 exactly when no time is unknown |
| SensorMetrics.SpentCountsInstants | ros2/src/safety_core_ros/src/sensor_monitor_node.cpp:305-331 | the time accounted to a status is the number of nanoseconds at which the current sample has it |
| SensorMetrics.PercentagesMeaning | ros2/src/safety_core_ros/src/sensor_monitor_node.cpp:339-344 | each percentage is the share of its own status in the window |
| SensorMetrics.FiguresMeaning | ros2/src/safety_core_ros/src/sensor_monitor_node.cpp:281-361 | mean and lowest rate, changes of status and window covered |
| SensorMetrics.TotalRateAdds | ros2/src/safety_core_ros/src/sensor_monitor_node.cpp:282-286 | the sum of rates behind the mean |
| SensorMetrics.MetricsOfAnInstant | ros2/src/safety_core_ros/src/sensor_monitor_node.cpp:267-354 | the figures without samples and over an empty window |
| SensorMetrics.SensorTracker.RecordMessage | ros2/src/safety_core_ros/src/sensor_monitor_node.cpp:112-117 | appends an arrival time |
| SensorMetrics.SensorTracker.RecordStatus | ros2/src/safety_core_ros/src/sensor_monitor_node.cpp:240-245 | appends a status sample |
| SensorMetrics.SensorTracker.PruneWindow | ros2/src/safety_core_ros/src/sensor_monitor_node.cpp:119-129 | drops old arrival times from the front |
| SensorMetrics.SensorTracker.PruneHistory | ros2/src/safety_core_ros/src/sensor_monitor_node.cpp:247-257 | drops old status samples from the front |
| SensorMetrics.SensorTracker.BuildMetrics | ros2/src/safety_core_ros/src/sensor_monitor_node.cpp:259-364 | every reported figure, the empty history and the single-instant window included |
| SensorMetrics.SensorTracker.RateStatistics | ros2/src/safety_core_ros/src/sensor_monitor_node.cpp:281-293 | mean and lowest rate |
| SensorMetrics.SensorTracker.StatusTimes | ros2/src/safety_core_ros/src/sensor_monitor_node.cpp:295-337 | time per status, and the number of adjacent differing statuses modulo 2^32 |

## Left out

- Floating point: rounding, NaN, infinities and the `isfinite` branches; doubles are reals. The tolerances 1e-12 and
  1e-9 and the stale-measurement factor are kept as constants.
- C++ weak memory ordering: the seqlock's steps are sequentially consistent and each field is stored and loaded whole.
- Seqlock.ReadsAreAtomic: excludes runs in which an attempt spans a positive multiple of 2^31 completed writes,
  because the 32-bit counter then comes round to its old value; Seqlock.AcceptedExactly gives the exact condition and
  Seqlock.TornRead a failing run.
- `read_increment` and `write_increment` of the odometry buffer, which the seqlock does not cover.
- Interleaved use of the mode machine: its calls are atomic here, as they are under the node's single-threaded
  executor; compare-and-swap loops collapse to one step.
- Configuration objects are copied when applied; later changes to them through the kept pointers are not modelled.
- Null pointers are modelled for point buffers, the mode machine and task callbacks only.
- The footprint overload of `evaluate_stop_distance`, which subtracts the front overhang from the distance.
- StopSafety.SmoothProfileAccepted: gives a sufficient condition; StopSafety.SmoothObstacleIff gives the exact one for
  what an obstacle adds.
- StopSafety.SmoothObstacleIff: covers planned braking up to the mean deceleration of a full and an eased period; with
  sharper planned braking every eased period can raise the claim again, and no single peak decides.
- BoundedEkf.LongPredictionLosesSemidefinite: gives one family of losses; the exact condition over runs is in
  BoundedEkf.RunSemidefiniteIff.
- DriveBridging.HeldStopStops: for a fault flag that does not fall; DriveBridging.SafeStopStops and
  DriveBridging.SafeStopEnds cover every behaviour of the flag.
- BoundedEkf.BoundedEkfFilter.UpdateStamped: the two `update` overloads share one model of predict, gate and correct,
  which the source writes twice.
- Callbacks of the task executor cannot re-enter it; what they return and what the clock reads afterwards come from an
  environment indexed by call number. The clock does not go below zero. The second overflow test after a callback
  cannot fire and is dropped. `max_tasks_` only selects an error message.
- TaskExecution.TaskExecutor.RunOne: works on the contents of one slot, which RunSlots stores back; the source updates
  the slot in place.
- SensorRecovery.SensorRecoveryManager.CheckForTimeouts: the order in which an unordered map is walked is a parameter,
  free to differ between calls.
- Constructors of the nodes: parameters the source refuses by throwing are preconditions; loading parameters and
  turning seconds into nanoseconds are not modelled.
- The casts of reported metrics to single precision, and the split of the window into seconds and nanoseconds.
- SensorMetrics.PercentagesSum: needs stamps that never go back and a window that is not empty; an empty window
  reports 100% for the status of its first sample, as BuildMetrics states.
- Health status thresholds of the sensor monitor, diagnostics, telemetry, logging, publishers and subscriptions.
- PID controller, alpha-beta and complementary filters, slip detector, GPS adapter, LiDAR corridor geometry, behaviour
  tree condition, configuration migration and environment parsing.
