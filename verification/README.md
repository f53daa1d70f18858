# Verified model of the flight software

A Dafny model of the flight core of a small-satellite simulator and of what its ground station
exchanges with it, with proofs over all inputs, all runs and, for the queue, all interleavings.

Objects that the source updates in place are classes.  Each method is proved equal to a step function
on values; the properties are lemmas about runs of those step functions.

| files | what they model |
|---|---|
| `Mekf`, `Posterior`, `DefiniteCovariance`, `ErrorDynamics`, `Kalman`, `Quaternions`, `Inverse3`, `LinearAlgebra`, `Vectors3`, `Reals` | the attitude filter: quaternion attitude, gyro bias, covariance; a small matrix theory built on quadratic forms |
| `SpscQueue`, `SpscRing`, `Bits` | the lock-free ring as a machine of atomic steps with program counters, whose loads may read old stores |
| `FlightSoftware`, `FdirManager`, `WheelHealth`, `SensorHealth`, `SensorFaults`, `Redundancy`, `ModeManager`, `ControlAllocator`, `Streaks`, `HealthStatuses` | the control cycle and its fault handling |
| `Ccsds`, `Words`, `Options`, `Commands`, `Telemetry`, `WireFormat`, `GroundStation` | command and telemetry packets over the header of section 4.1.2 of CCSDS 133.0-B-1 |
| `TaskScheduler`, `Pid`, `AttitudeController`, `WheelDesaturation` | the scheduler and the bounded controllers |

Main results, hardest first; their rows open the table below.

- **Filter.** In every run of the public operations the attitude stays a unit quaternion, the
  covariance symmetric positive semidefinite and the innovation covariance invertible
  (`Mekf.RunsStaySound`); from definite starts it stays definite
  (`DefiniteCovariance.RunsStayDefinite`).  The Joseph update equals P - K S K^T and (I - K H) P, never
  increases any variance, and no other gain does better (`Mekf.UpdatedCovariance`,
  `Mekf.UpdateIsOptimal`).  What a measurement changes in attitude and bias is the posterior estimate of
  both errors (`Posterior.MeasurementIsPosterior`).  The
  prediction and the measurement do not speak of the same error: `ErrorDynamics` says which error
  follows the transition matrix, and exactly when the measured one does.
- **Queue.** Whichever stores the two threads' loads read, what is popped is a prefix of what is pushed
  and the slots hold the rest (`SpscQueue.EveryInterleaving`).  An interleaving is a history of a bounded
  FIFO if and only if every refusal in it has read the newest store (`SpscQueue.RunRefinesFifo`); with
  older ones it need not be one in any order (`SpscRing.StaleLoadsAreNoFifo`).  What `empty()` and
  `size()` tell either thread can be relied on all the same (`SpscQueue.LookPromises`).
- **Fault handling.** In every cycle of every run the diagnoses, the failed wheels and the rate decide the
  mode, and with it which controller's torque is returned and allocated
  (`FlightSoftware.TorqueFollowsMode`).  A wheel's diagnosis follows from its samples and the physics of a
  wheel (`WheelHealth.PhysicsDecides`); after two failures no wheel is commanded again, and exactly the
  cycles that keep their commands end in SAFE (`FlightSoftware.TwoFailuresAreFinal`, and from the samples
  `FlightSoftware.BrokenWheelsAreFinal`); the allocator finds the least-norm command
  (`ControlAllocator.CommandIsLeastNorm`); active sensor, mode and filter are explained by the raw readings
  of all sensors (`SensorFaults.ReadingsExplainPair`, `SensorFaults.FailingReadingResponse`,
  `SensorFaults.OtherReadingResponse`).
- **Codecs.** Both encoder/decoder pairs round-trip for all arguments
  (`Commands.ParseInvertsEncode`, `Telemetry.DecodeInvertsEncode`), sequence counts number the packets
  (`Commands.CommandCountIsIndex`, `Telemetry.SequenceCountIsIndex`), and `WireFormat` gives every packet
  byte by byte and exactly which bytes are accepted.
- **Timing and control.** The exact schedule of every task, on a fresh or restarted clock
  (`TaskScheduler.DueLaw`, `TaskScheduler.SecondRunIsLate`), the exact condition for exact rates
  (`TaskScheduler.ExactRate`), the law of the attitude torque and its damping
  (`AttitudeController.TorqueLaw`, `AttitudeController.FeedbackOpposesRate`), exact slew of its rate limiter
  (`AttitudeController.ConstantRequest`), a bound over runs of any length
  (`AttitudeController.TorqueStaysBounded`), and exactly when modes and desaturation phases change
  (`ModeManager.ChangeLaw`, `WheelDesaturation.PhaseLaw`).

## Reading the model

- `double` is modelled as `real`.  The square root is a function argument with the property `IsSqrt`
  (non-negative, squares back): it is the exact root.
- An encoded `double` is an opaque sequence of eight bytes in the order of a little-endian host.
- The queue's two indices are sequences of stores.  A load of the other thread's index may return any
  store no older than the one this thread has read before, which is all that release stores and acquire
  loads of one location promise; the slots are accessed in the order these establish
  (`SpscQueue.SlotAccessesAreOrdered`).
- A run is a sequence of events applied to the step functions.  Event types list the public operations
  and what the environment may do in between.

## Where the code and its comments differ

The model follows the code.

- `src/fsw/gnc/ekf/MEKF.cpp:55-57` gives the linearised dynamics of the error, which F and Phi follow.
  The error that `src/fsw/gnc/ekf/MEKF.cpp:80` measures and `src/fsw/gnc/ekf/MEKF.cpp:121` corrects
  stands on the left of the attitude, while `src/fsw/gnc/ekf/MEKF.cpp:47` turns the attitude on the
  right.  With no bias error a prediction leaves the measured error alone
  (`ErrorDynamics.PredictionKeepsInnovation`); Phi agrees if and only if no time passes or the error
  lies along the rate (`ErrorDynamics.TransitionFitsInnovation`, with `ErrorDynamics.TransitionMisfit`).
  A bias error enters the measured error turned by the attitude
  (`ErrorDynamics.MeasuredErrorGathersBias`); Phi agrees, to first order, if and only if no time passes or
  the attitude leaves the bias error as it is (`ErrorDynamics.TransitionFitsBias`, with
  `ErrorDynamics.BiasMisfit`).
  The error seen from the body is the one that Phi moves, to first order
  (`ErrorDynamics.BodyErrorFollowsTransition`, `ErrorDynamics.BodyErrorGathersBias`).
- `src/fsw/fdir/FDIRManager.cpp:222-228` speaks of going to DEGRADED mode "if not already in a worse
  mode"; that holds for degraded sensors only.  A first wheel failure
  (`src/fsw/fdir/FDIRManager.cpp:311-313`) and a failover (`src/fsw/fdir/FDIRManager.cpp:199-204`)
  force DEGRADED from any mode, SAFE included (`WheelHealth.EachFailureForcesMode`,
  `SensorFaults.FailingReadingResponse`).
- `src/fsw/telemetry/CCSDS.hpp:20` and section 4.1.2.5 of CCSDS 133.0-B-1 put total size - 7 into the
  length field.  The code stores total size - 1, cut to 16 bits (`Ccsds.StoredLength`); no conformance
  is claimed for that field.
- `src/fsw/gnc/control/WheelDesaturation.cpp:135` says that the torque opposes the momentum.  It is
  orthogonal to it (`WheelDesaturation.TorqueIsOrthogonalToMomentum`).
- `src/fsw/core/ModeManager.hpp:87-88` contrasts forced changes with commanded ones; neither checks the
  minimum time (`src/fsw/core/ModeManager.cpp:82-91`).
- `src/fsw/FlightSoftware.cpp:145` clears the command vector that `src/fsw/FlightSoftware.cpp:89` passes
  on to be indexed at the next cycle with four wheel speeds.  `FlightSoftware.CommandsAreThereExactlyWhen`
  and `FlightSoftware.CommandsAfterRun` say when the commands are there,
  `FlightSoftware.CommandsCanBeMissing` is a run in which they are not.

## Model

| member | source | states |
|---|---|---|
| `Mekf.RunsStaySound` | src/fsw/gnc/ekf/MEKF.cpp:11-141 | over every run from the constructor: unit attitude, semidefinite covariance, invertible S for the next measurement |
| `Posterior.MeasurementIsPosterior` | src/fsw/gnc/ekf/MEKF.cpp:76-122 | what a measurement changes in attitude and bias is the posterior estimate of both errors: of all pairs it alone has the least cost, weighed by the inverse noise and the inverse covariance |
| `Posterior.MeasurementWeighs` | src/fsw/gnc/ekf/MEKF.cpp:100-122 | without any inverse, in every sound state: for the w with (H P H^T + R) w = z the change of attitude and bias is P (w, 0) |
| `DefiniteCovariance.RunsStayDefinite` | src/fsw/gnc/ekf/MEKF.cpp:11-141 | over every run from the constructor the covariance stays positive definite if every initialisation gives a definite one |
| `DefiniteCovariance.MeasurementAddsInformation` | src/fsw/gnc/ekf/MEKF.cpp:100-128 | the information form: a measurement turns an inverse M of the covariance into M + H^T R^-1 H |
| `Kalman.GainIsOptimal` | src/fsw/gnc/ekf/MEKF.cpp:100-128 | no other gain matrix leaves less variance along any direction |
| `Kalman.JosephCollapses` | src/fsw/gnc/ekf/MEKF.cpp:124-128 | with the coded gain the Joseph form equals P - K S K^T and (I - K H) P as matrices |
| `Mekf.UpdateIsOptimal` | src/fsw/gnc/ekf/MEKF.cpp:92-128 | a measurement never increases the variance along any direction, and no other gain would leave less |
| `Mekf.UpdatedCovariance` | src/fsw/gnc/ekf/MEKF.cpp:92-128 | the covariance after a measurement is P - K S K^T and equals (I - K H) P |
| `Mekf.StepKeepsSound` | src/fsw/gnc/ekf/MEKF.cpp:18-141 | every public operation is defined in every sound state (the gain can be computed) and keeps unit attitude and semidefinite covariance |
| `ErrorDynamics.PredictionKeepsInnovation` | src/fsw/gnc/ekf/MEKF.cpp:40-91 | with no bias error a prediction leaves the innovation, the error that the filter measures and corrects, exactly as it was |
| `ErrorDynamics.TransitionFitsInnovation` | src/fsw/gnc/ekf/MEKF.cpp:55-91 | when truth and estimate turn at the same rate (no bias error), Phi takes the innovation before a prediction to the one after it if and only if dt is zero or the error lies along the rate |
| `ErrorDynamics.TransitionMisfit` | src/fsw/gnc/ekf/MEKF.cpp:55-91 | a misfit, from the initial estimate: an error about y and a rate about z |
| `ErrorDynamics.PredictionGathersBias` | src/fsw/gnc/ekf/MEKF.cpp:40-91 | a prediction with a bias error, from any attitude error, multiplies the measured quotient by the bias step turned by the estimated attitude |
| `ErrorDynamics.MeasuredErrorGathersBias` | src/fsw/gnc/ekf/MEKF.cpp:42-80 | at no attitude error the measured error gathers -beta dt turned by the attitude, plus an explicit term of second order, over the divisor |
| `ErrorDynamics.TransitionFitsBias` | src/fsw/gnc/ekf/MEKF.cpp:55-80 | the second block of Phi gives that first-order term if and only if dt is zero or the attitude leaves the bias error as it is |
| `ErrorDynamics.BiasMisfit` | src/fsw/gnc/ekf/MEKF.cpp:55-91 | a misfit at rest with no attitude error: Phi gives (-0.1, 0, 0), the filter measures a positive multiple of (0.028, -0.096, 0) |
| `ErrorDynamics.BodyErrorFollowsTransition` | src/fsw/gnc/ekf/MEKF.cpp:42-70 | the error seen from the body, q^-1 p, does turn as the first block of Phi says, but for an explicit term of second order and the normalising divisor |
| `ErrorDynamics.BodyErrorGathersBias` | src/fsw/gnc/ekf/MEKF.cpp:42-70 | a bias error enters the error q^-1 p seen from the body as the second block of Phi says, but for an explicit term of second order and the divisor |
| `SpscQueue.RunRefinesFifo` | src/fsw/core/SPSCQueue.hpp:35-79 | every interleaving, whichever stores the loads read, moves the contents as a FIFO queue of capacity - 1 places does, and is a history of that queue if and only if every refusal in it has read the newest store |
| `SpscRing.StaleLoadsAreNoFifo` | src/fsw/core/SPSCQueue.hpp:35-62 | a run with four slots and two items inside that refuses both a push and a pop on old stores, and no order of its six operations is a history of a FIFO queue of three places |
| `SpscQueue.EveryInterleaving` | src/fsw/core/SPSCQueue.hpp:25-79 | from empty, whichever stores the loads read: popped is a prefix of pushed, at most capacity - 1 in between, the slots hold the difference, and no slot is written and read at once |
| `SpscQueue.LookPromises` | src/fsw/core/SPSCQueue.hpp:35-79 | whichever stores the loads read: as many pops as size() tells the consumer are not refused, so the next one is not when empty() is false; likewise pushes for the producer; whatever the other thread does |
| `SpscQueue.StepRefinesFifo` | src/fsw/core/SPSCQueue.hpp:35-79 | every atomic step moves the contents as a FIFO queue of capacity - 1 places does, and is a step of that queue if and only if it is no refusal on a store that is not the newest |
| `SpscQueue.StepKeepsInv` | src/fsw/core/SPSCQueue.hpp:35-79 | every atomic step of either thread, with every load that release and acquire allow, keeps the invariant |
| `FlightSoftware.TorqueFollowsMode` | src/fsw/FlightSoftware.cpp:86-147 | every cycle of every run: what a raised number of failed wheels does to the mode, and by the mode that the update then settles on whether the detumbling torque, the pointing torque or zero is returned and commanded |
| `FlightSoftware.TwoFailuresAreFinal` | src/fsw/FlightSoftware.cpp:86-147 | once two wheels have failed no wheel is commanded again, and a later cycle ends in SAFE with four zero commands if and only if it has four speeds or the mode manager's update ends in SAFE |
| `FlightSoftware.TwoFailuresForceSafe` | src/fsw/FlightSoftware.cpp:86-147 | with four speeds in every cycle: once two wheels have failed, every later cycle ends in SAFE with all commands zero, whatever modes are commanded |
| `FlightSoftware.FailuresAreInTheSamples` | src/fsw/FlightSoftware.cpp:86-96 | two wheels have failed in the closed loop if and only if the samples of two wheels show saturation or ten stuck tests in a row |
| `FlightSoftware.BrokenWheelsAreFinal` | src/fsw/FlightSoftware.cpp:86-147 | two wheels broken by their samples: no wheel is commanded again, and exactly the cycles that keep their commands end in SAFE with four zero commands |
| `FlightSoftware.OverspeedForcesSafe` | src/fsw/FlightSoftware.cpp:86-147 | from the reported speeds alone, four in every cycle: after two wheels have been reported at the speed limit, every later cycle ends in SAFE with all commands zero |
| `FlightSoftware.CommandsAreThereExactlyWhen` | src/fsw/FlightSoftware.cpp:86-146 | after any cycle, the next four-speed one finds the commands it looks for if and only if this cycle had four speeds, or the mode manager's update ended in SAFE, or all wheels are at the speed limit |
| `FlightSoftware.CommandsCanBeMissing` | src/fsw/FlightSoftware.cpp:86-146 | a run that misses its commands: NOMINAL, one cycle at rest without speeds, then four wheels |
| `FlightSoftware.CommandsAfterRun` | src/fsw/FlightSoftware.cpp:86-146 | after a run with any number of speeds per cycle there are four commands if and only if its last cycle kept them |
| `FlightSoftware.FailedWheelsAreIdle` | src/fsw/FlightSoftware.cpp:86-147 | in every reachable state, failed wheels are flagged and commanded zero |
| `FlightSoftware.CommandsProduceTorque` | src/fsw/FlightSoftware.cpp:126-147 | outside SAFE the commands stored by a four-speed cycle produce exactly the pointing torque, with least squared norm |
| `ControlAllocator.CommandIsLeastNorm` | src/fsw/gnc/control/ControlAllocator.hpp:69-104 | with three healthy wheels the command produces exactly the requested torque and is the unique idle-respecting one of least squared norm |
| `ControlAllocator.RankTest` | src/fsw/gnc/control/ControlAllocator.hpp:80-89 | the determinant test passes if and only if at least three of the four wheels are healthy; otherwise the determinant is 0 |
| `WheelHealth.PhysicsDecides` | src/fsw/fdir/FDIRManager.cpp:246-304 | from samples and the friction and inertia of a wheel alone: FAILED if and only if at 95 rad/s or ten samples in a row answered by less than a twentieth of the acceleration, HEALTHY if and only if in addition no fifteen by less than half; a full answer clears both counters |
| `WheelHealth.FailedExactlyWhen` | src/fsw/fdir/FDIRManager.cpp:237-304 | a wheel is FAILED if and only if a sample reached the speed limit or ten in a row met the stuck test; HEALTHY if and only if in addition no fifteen in a row were weak |
| `SensorFaults.ReadingsExplainPair` | src/fsw/fdir/FDIRManager.cpp:21-194 | over any run of readings, registrations, resets and mode changes: the backup is available if and only if no reading since the registration made either sensor fail; the active sensor is the backup if and only if the primary failed first |
| `SensorFaults.FailingReadingResponse` | src/fsw/fdir/FDIRManager.cpp:155-231 | the reading that makes a sensor of a pair fail decides mode, filter and active sensor, by the readings before it, the actions in force and whether it is a gyro |
| `SensorFaults.OtherReadingResponse` | src/fsw/fdir/FDIRManager.cpp:155-231 | every other reading: one that degrades its sensor takes the mode from NOMINAL to DEGRADED and leaves every other mode alone, the rest do nothing |
| `SensorFaults.FailedExactlyWhenStuck` | src/fsw/fdir/FDIRManager.cpp:83-91 | with stuck detection on, a sensor of the running system is FAILED if and only if its newest readings, by norm of differences, have not moved |
| `SensorFaults.DegradedExactlyWhen` | src/fsw/fdir/SensorHealthMonitor.hpp:53-214 | the same in the running system, by norms of readings |
| `Redundancy.HistoryExplainsPair` | src/fsw/fdir/FDIRManager.cpp:21-194 | for a pair registered once: backup available if and only if neither sensor ever entered FAILED; active is the backup if and only if the first to fail was the primary |
| `Commands.ParseInvertsEncode` | src/fsw/core/CommandParser.cpp:14-73 | parse inverts the encoder for every command, quaternion, gains, flag, sequence count and trailing bytes |
| `Commands.AcceptedPacketReencodes` | src/fsw/core/CommandParser.cpp:14-73 | re-encoding the command of any accepted packet agrees on type, APID, function code and payload prefix, the gains flag up to zero or non-zero |
| `Commands.CommandCountIsIndex` | src/sim/GroundStation.cpp:16-110 | in any mixture of commands the k-th packet parses to the k-th command and carries the count k mod 16384 |
| `WireFormat.CommandOnTheWire` | src/sim/GroundStation.cpp:16-110 | every command byte by byte: 0x18 0xC9, count, length less one, function code, parameters most significant byte first, scalar part last |
| `WireFormat.AcceptedCommands` | src/fsw/core/CommandParser.cpp:14-73 | bytes are accepted as a command if and only if type bit, APID, function code and the size of the parameters are right |
| `Telemetry.DecodeInvertsEncode` | src/sim/GroundStation.cpp:112-155 | the decoder inverts each encoder for every argument, counter and trailing bytes, names cut to 255 bytes |
| `Telemetry.ProcessSeesMessages` | src/sim/GroundStation.cpp:112-155 | encoded packets mixed with rejected byte strings leave the picture that the encoder arguments give in order |
| `Telemetry.SequenceCountIsIndex` | src/fsw/telemetry/TelemetryService.cpp:12-30 | in any interleaving over APIDs the k-th packet of a channel carries k mod 16384, its APID, and length total - 1 modulo 65536 |
| `WireFormat.TelemetryOnTheWire` | src/fsw/telemetry/TelemetryService.cpp:12-88 | every telemetry packet byte by byte, names cut to 255 bytes |
| `WireFormat.AcceptedTelemetry` | src/sim/GroundStation.cpp:112-155 | bytes are accepted as telemetry if and only if type bit, APID and size are right, and each field is read where it lies |
| `Ccsds.AnyOrderOfSetters` | src/fsw/telemetry/CCSDS.hpp:24-50 | setting each field at most once gives the same header words in every order |
| `ModeManager.ChangeLaw` | src/fsw/core/ModeManager.cpp:23-91 | over any run: each mode changes by itself exactly when its threshold is passed and the minimum time since the last change is over; commanded and forced changes always happen |
| `ModeManager.HysteresisStopsOscillation` | src/fsw/core/ModeManager.cpp:23-63 | a constant rate causes at most one automatic change, from any start, if and only if the lower threshold does not exceed the upper (or can never be undercut) |
| `ModeManager.AutomaticChangesAreThrottled` | src/fsw/core/ModeManager.cpp:15-95 | over any mix of updates, commands and forced changes, (automatic changes) x (minimum time) is at most the elapsed time |
| `TaskScheduler.DueLaw` | src/fsw/core/TaskScheduler.cpp:73-95 | a task that never throws, whenever it ran last, waits for its first due tick f and then runs at exactly f, f + m, f + 2m, ... |
| `TaskScheduler.ExactRate` | src/fsw/core/TaskScheduler.cpp:73-95 | a task of period k dt runs at exactly 0, k, 2k, ... if and only if k = 1 or dt exceeds the 1e-6 tolerance |
| `TaskScheduler.SecondRunIsLate` | src/fsw/core/TaskScheduler.cpp:25-95 | a second run restarts the clock but not the tasks: a task (of a period above the 1e-6 tolerance) last run at tick k misses the first k + m ticks and then keeps its rate |
| `TaskScheduler.RunCount` | src/fsw/core/TaskScheduler.cpp:73-95 | in n ticks a task of m ticks' period runs ceil(n / m) times |
| `AttitudeController.TorqueLaw` | src/fsw/gnc/control/AttitudeController.hpp:112-210 | while no limit is met each component of the commanded torque is the PID law of its own axis less the feedback gain times the rate error |
| `AttitudeController.FeedbackOpposesRate` | src/fsw/gnc/control/AttitudeController.hpp:127-141 | in every update what the request adds to the axis outputs works against the rate error by gain times its square; a request within reach is commanded |
| `AttitudeController.ConstantRequest` | src/fsw/gnc/control/AttitudeController.hpp:194-210 | for a constant request the distance left is exactly max(0, d0 - rate time), and it has arrived if and only if the reach covers d0 |
| `AttitudeController.TorqueStaysBounded` | src/fsw/gnc/control/AttitudeController.hpp:85-168 | over any run, however long, the torque is at most sqrt(3) times the axis limit plus the feedback gain times the largest rate error |
| `AttitudeController.TorqueMovesSlowly` | src/fsw/gnc/control/AttitudeController.hpp:85-168 | over any run of updates, gain changes and resets the torque is at most the rate times the time since the last reset and every axis output stays within the nominal limit |
| `Pid.TextbookLaw` | src/fsw/gnc/control/PID.hpp:34-64 | while the integral term never reaches its limit, the output is the saturated textbook law over the whole run, without a derivative on the first call |
| `WheelDesaturation.PhaseLaw` | src/fsw/gnc/control/WheelDesaturation.cpp:13-115 | over any run, from the wheel readings: an idle unit starts exactly when the norm of the momenta exceeds the threshold times the capacity, stops exactly below 0.7 of that or after the maximum stay, and is idle again exactly after the minimum |
| `WheelDesaturation.DesaturationIsBrief` | src/fsw/gnc/control/WheelDesaturation.cpp:81-105 | in every run a stay in DESATURATING lasts at most the maximum duration after any update |
| `WheelDesaturation.ReentryTakesTime` | src/fsw/gnc/control/WheelDesaturation.cpp:81-115 | in every run more than the minimum time passes between leaving and re-entering DESATURATING |
| `WheelDesaturation.DipoleIsPerpendicular` | src/fsw/gnc/control/WheelDesaturation.cpp:31-139 | zero outside desaturation and in fields that fail the thresholds, otherwise gain times the perpendicular part; no component along B; magnitude at most gain times that of h |
| `Quaternions.NormOfProduct` | src/fsw/gnc/ekf/MEKF.cpp:47 | the quaternion product multiplies squared norms (Euler's four-square identity) |
| `Quaternions.EulerStepIsProduct` | src/fsw/gnc/ekf/MEKF.cpp:42-51 | the Euler step of the kinematics is q times the unnormalised rotation (1, omega dt / 2) |
| `Quaternions.NormOfEulerStep` | src/fsw/gnc/ekf/MEKF.cpp:42-52 | the Euler step multiplies the squared norm by 1 + norm(omega)^2 dt^2 / 4, so from a unit quaternion it is at least 1 |
| `Quaternions.NormOfSmallRotation` | src/fsw/gnc/ekf/MEKF.cpp:118-119 | the correction (1, theta / 2) has squared norm 1 + norm(theta)^2 / 4 |
| `Quaternions.NormalizedIsUnit` | src/fsw/gnc/ekf/MEKF.cpp:52 | normalising gives a unit quaternion if and only if the quaternion is not zero |
| `Quaternions.InverseIsInverse` | src/fsw/gnc/ekf/MEKF.cpp:80 | the inverse used for the residual is the two-sided multiplicative inverse of every nonzero quaternion |
| `Quaternions.TimesAssociative` | src/fsw/gnc/ekf/MEKF.cpp:80-121 | the quaternion product is associative |
| `Quaternions.HamiltonProduct` | src/fsw/gnc/ekf/MEKF.cpp:45-80 | the product is Hamilton's, by scalar and vector parts |
| `Inverse3.InverseAction` | src/fsw/gnc/ekf/MEKF.cpp:103 | with a nonzero determinant the adjugate formula gives a two-sided inverse of a 3 by 3 matrix |
| `Inverse3.PosDefInvertible` | src/fsw/gnc/ekf/MEKF.cpp:103 | a positive definite 3 by 3 matrix has a positive determinant |
| `Kalman.InnovationPosDef` | src/fsw/gnc/ekf/MEKF.cpp:100-103 | for any dimensions, S = H P H^T + R is positive definite when P is semidefinite and R definite |
| `Kalman.JosephForm` | src/fsw/gnc/ekf/MEKF.cpp:124-128 | the variance the Joseph form leaves along any direction, for any gain whatever |
| `Kalman.GainEquation` | src/fsw/gnc/ekf/MEKF.cpp:100-103 | the coded gain solves the normal equation S K^T = H P |
| `Kalman.OptimalForm` | src/fsw/gnc/ekf/MEKF.cpp:100-128 | along every direction the coded gain removes exactly the variance K S K^T |
| `Kalman.PostFitResidual` | src/fsw/gnc/ekf/MEKF.cpp:100-106 | applying the correction K z leaves exactly R S^-1 z of an innovation z unexplained |
| `Kalman.CorrectionIsPosterior` | src/fsw/gnc/ekf/MEKF.cpp:100-108 | for any dimensions, the correction is the only x of least cost (z - H x)^T R^-1 (z - H x) + x^T P^-1 x |
| `Kalman.NormalEquation` | src/fsw/gnc/ekf/MEKF.cpp:100-108 | for any dimensions, P^-1 dx equals H^T R^-1 (z - H dx) |
| `Kalman.JosephPosDef` | src/fsw/gnc/ekf/MEKF.cpp:124-128 | for any dimensions and any gain, the Joseph form of a definite covariance with definite noise is definite |
| `Kalman.InformationAdds` | src/fsw/gnc/ekf/MEKF.cpp:100-128 | for any dimensions, the inverse of the updated covariance is the old inverse plus H^T R^-1 H |
| `Mekf.InnovationInvertible` | src/fsw/gnc/ekf/MEKF.cpp:100-103 | S is positive definite with positive determinant, so the inverse in the gain exists |
| `Mekf.PredictKeepsSound` | src/fsw/gnc/ekf/MEKF.cpp:40-74 | prediction keeps the attitude unit and the covariance symmetric semidefinite, and divides by at least 1 |
| `Mekf.RotatedIsUnit` | src/fsw/gnc/ekf/MEKF.cpp:115-122 | both normalisations of the correction divide by at least 1 and the second changes nothing |
| `Mekf.UpdateKeepsSound` | src/fsw/gnc/ekf/MEKF.cpp:76-129 | a measurement is defined (S is invertible) and keeps the attitude unit and the covariance symmetric semidefinite |
| `Mekf.PredictedVariance` | src/fsw/gnc/ekf/MEKF.cpp:69-73 | along every direction a prediction carries the old variance through Phi and adds that of Q; bias and net rate stay |
| `Mekf.CorrectionFitsMeasurement` | src/fsw/gnc/ekf/MEKF.cpp:100-110 | the attitude half of the correction explains the innovation up to the share R S^-1 (the whole correction: Posterior) |
| `Posterior.FirstCycle` | src/fsw/gnc/ekf/MEKF.cpp:18-122 | the first cycle of a fresh filter at rest in numbers: bias -z dt / c, net rate its opposite, attitude turned by z a / c, with a = 1 + dt^2 + 1e-7 and c = a + 1e-4 |
| `Posterior.CycleShows` | src/fsw/gnc/ekf/MEKF.cpp:18-31 | in every cycle attitude and bias are those of prediction and correction, and the net rate is the gyro reading less the corrected bias |
| `Mekf.InnovationDoubleCover` | src/fsw/gnc/ekf/MEKF.cpp:77-91 | measurements q and -q give the same innovation if and only if the residual rotation is not a half turn (or vanishes) |
| `Mekf.InnovationOfRotation` | src/fsw/gnc/ekf/MEKF.cpp:77-122 | measuring the attitude that a correction by theta leads to gives back theta over the normalising divisor, so measurement and correction agree in side and sign (a prediction does not, see ErrorDynamics) |
| `Mekf.InnovationOfTurn` | src/fsw/gnc/ekf/MEKF.cpp:77-91 | in components: the estimate turned on the left by (r, r v / 2) is measured as the error v times the magnitude of r, for either sign of r |
| `Mekf.AgreeingMeasurement` | src/fsw/gnc/ekf/MEKF.cpp:76-122 | a measurement equal to the estimate or its antipode moves neither attitude nor bias |
| `Mekf.InitializeForgets` | src/fsw/gnc/ekf/MEKF.cpp:33-38 | whatever happened before, a filter initialised with a multiple of a unit quaternion goes on from that quaternion, bias and covariance |
| `Mekf.ResetForgets` | src/fsw/gnc/ekf/MEKF.cpp:131-141 | whatever happened before, a reset filter goes on as a new one, net rate apart |
| `DefiniteCovariance.TransitionIsInjective` | src/fsw/gnc/ekf/MEKF.cpp:59-70 | the transposed transition matrix is injective, whatever the rate and the step |
| `ErrorDynamics.StepKeepsQuotient` | src/fsw/gnc/ekf/MEKF.cpp:42-51 | truth and estimate that turn at the same rate keep the quotient p q^-1, and so the residual, for any nonzero estimate |
| `Mekf.Filter.constructor` | src/fsw/gnc/ekf/MEKF.cpp:11-16 | starts at the initial estimate |
| `Mekf.Filter.Initialize` | src/fsw/gnc/ekf/MEKF.cpp:33-38 | realises the initialise step for any quaternion, zero included, and any 6 by 6 matrix |
| `Mekf.Filter.Predict` | src/fsw/gnc/ekf/MEKF.cpp:40-74 | the field-by-field code realises the prediction step of the run theorems, for any 6 by 6 noise matrix |
| `Mekf.Filter.UpdateQuat` | src/fsw/gnc/ekf/MEKF.cpp:76-129 | the field-by-field code realises the measurement step of the run theorems and of Posterior, for any noise matrix with which S can be inverted |
| `Mekf.Filter.Update` | src/fsw/gnc/ekf/MEKF.cpp:18-31 | predict, correct and net rate with the nominal noise matrices, whenever S can be inverted |
| `Mekf.Filter.Reset` | src/fsw/gnc/ekf/MEKF.cpp:131-141 | identity attitude, zero bias, identity covariance; the net rate stays |
| `Bits.MaskIsMod` | src/fsw/core/SPSCQueue.hpp:37 | masking with 2^k - 1 is the remainder modulo 2^k |
| `Bits.PowerOfTwoTest` | src/fsw/core/SPSCQueue.hpp:23 | the compile-time test accepts exactly the powers of two |
| `SpscQueue.SuccessorIsMod` | src/fsw/core/SPSCQueue.hpp:37 | the masked successor of an index is the successor modulo the capacity |
| `SpscQueue.PushRefusal` | src/fsw/core/SPSCQueue.hpp:36-41 | a push is refused exactly when the ring is full up to the store of head that its load reads; the refusal is right if and only if that store is the newest; an accepted push always has room |
| `SpscQueue.PopRefusal` | src/fsw/core/SPSCQueue.hpp:53-57 | a pop is refused exactly when its load reads the store of tail its own head has reached; the refusal is right if and only if that store is the newest; an accepted pop always has an item |
| `SpscQueue.SlotAccessesAreOrdered` | src/fsw/core/SPSCQueue.hpp:39-60 | whatever a slot held before it is written was popped by a store of head the producer has read, and what is read was pushed by a store of tail the consumer has read, so release and acquire order all slot accesses |
| `SpscQueue.NoSlotConflict` | src/fsw/core/SPSCQueue.hpp:43-60 | the slot about to be written is never the slot about to be read |
| `SpscQueue.NewestLoadsAreFifo` | src/fsw/core/SPSCQueue.hpp:35-79 | when every deciding load reads the newest store, as under sequential consistency, every interleaving is a history of that queue |
| `SpscQueue.ProducerLook` | src/fsw/core/SPSCQueue.hpp:67-79 | empty() and size() called by the producer, in either order of the loads, show the fill level up to the store of head that is read: never too little, below the capacity, exact if and only if that store is the newest |
| `SpscQueue.ConsumerLook` | src/fsw/core/SPSCQueue.hpp:67-79 | called by the consumer they show the fill level up to the store of tail that is read: never too much, exact if and only if that store is the newest |
| `SpscQueue.OutsiderSees` | src/fsw/core/SPSCQueue.hpp:74-79 | any other thread, whichever stores h of head and t of tail it reads, gets a number below the capacity: t - h modulo the capacity |
| `SpscRing.LegalOrder` | src/fsw/core/SPSCQueue.hpp:35-62 | an order of two threads' operations that is a FIFO history is found by the search that the counterexample rules out |
| `SpscRing.PushSteps` | src/fsw/core/SPSCQueue.hpp:35-46 | what an uninterrupted push leaves and answers, whichever store of head it reads |
| `SpscRing.PopSteps` | src/fsw/core/SPSCQueue.hpp:52-62 | what an uninterrupted pop leaves and answers, whichever store of tail it reads |
| `SpscRing.Ring.constructor` | src/fsw/core/SPSCQueue.hpp:25 | an empty queue over any buffer of a power-of-two size |
| `SpscRing.Ring.Push` | src/fsw/core/SPSCQueue.hpp:35-46 | used by one thread at a time: the four atomic steps; it succeeds exactly when there is room and appends |
| `SpscRing.Ring.Pop` | src/fsw/core/SPSCQueue.hpp:52-62 | used by one thread at a time: the four atomic steps; it succeeds exactly when not empty and removes the oldest |
| `ControlAllocator.GramDeterminant` | src/fsw/gnc/control/ControlAllocator.hpp:80-83 | det(A A^T) is a positive constant times the number of triples of healthy wheels |
| `ControlAllocator.CommandIsIdle` | src/fsw/gnc/control/ControlAllocator.hpp:91-101 | failed wheels receive no torque even before the final masking |
| `ControlAllocator.BodyTorqueInNumbers` | src/fsw/gnc/control/ControlAllocator.hpp:26-34 | the wheel axes in numbers, by the body torque of any wheel torques |
| `ControlAllocator.Allocator.constructor` | src/fsw/gnc/control/ControlAllocator.hpp:22-36 | all four wheels start healthy |
| `ControlAllocator.Allocator.SetWheelHealth` | src/fsw/gnc/control/ControlAllocator.hpp:41-49 | changes one flag; an index out of range changes nothing |
| `ControlAllocator.Allocator.GetWheelHealth` | src/fsw/gnc/control/ControlAllocator.hpp:54-59 | an index out of range reads as unhealthy |
| `ControlAllocator.Allocator.Allocate` | src/fsw/gnc/control/ControlAllocator.hpp:69-104 | succeeds if and only if three wheels are healthy, with the least-norm command; otherwise returns zeros |
| `ModeManager.LastChangeExists` | src/fsw/core/ModeManager.cpp:65-72 | every run has a last point of change (or none), so the next row always applies |
| `ModeManager.TimerIsTimeSinceChange` | src/fsw/core/ModeManager.cpp:15-72 | the timer is exactly the time since the last mode change, and the previous mode is the one it left |
| `ModeManager.Oscillation` | src/fsw/core/ModeManager.cpp:23-63 | for thresholds the wrong way round, a constant rate and two updates that give two automatic changes |
| `ModeManager.Manager.constructor` | src/fsw/core/ModeManager.cpp:6-13 | starts in SAFE with the timer at zero |
| `ModeManager.Manager.Update` | src/fsw/core/ModeManager.cpp:15-21 | realises the update step of the run theorems at the norm of the angular velocity |
| `ModeManager.Manager.EvaluateTransitions` | src/fsw/core/ModeManager.cpp:23-63 | no change before the minimum time, afterwards the change the thresholds ask for |
| `ModeManager.Manager.TransitionToMode` | src/fsw/core/ModeManager.cpp:65-80 | a real change records the previous mode and restarts the timer |
| `ModeManager.Manager.CommandMode` | src/fsw/core/ModeManager.cpp:82-91 | always succeeds, at any time |
| `ModeManager.Manager.ForceModeChange` | src/fsw/core/ModeManager.cpp:102-113 | changes the mode whatever the timer says |
| `ModeManager.Manager.Reset` | src/fsw/core/ModeManager.cpp:97-100 | a transition to SAFE; the timer keeps running if the mode was SAFE already |
| `Streaks.StreakIsMaximal` | src/fsw/fdir/SensorHealthMonitor.hpp:183-191 | a streak is the longest all-set suffix: set throughout and not extensible |
| `Streaks.HasRunGrows` | src/fsw/fdir/FDIRManager.cpp:272-283 | a new flag completes a run of k exactly when the streak it ends has length at least k |
| `WheelHealth.HistoryExplainsWheel` | src/fsw/fdir/FDIRManager.cpp:245-304 | the whole record of a wheel (last speed, both counters, status) read off its history of samples |
| `WheelHealth.FleetTracksEachWheel` | src/fsw/fdir/FDIRManager.cpp:237-304 | after any calls, with speeds of any number, each wheel's record depends on its own samples only |
| `WheelHealth.SamplesAreReported` | src/fsw/fdir/FDIRManager.cpp:246-264 | the samples of a wheel that every call reports are its speeds, torques and steps, one for one |
| `WheelHealth.GoodWheelStaysHealthy` | src/fsw/fdir/FDIRManager.cpp:246-304 | a wheel below 95 rad/s that answers by at least half whenever it can be judged is HEALTHY after any history of calls |
| `WheelHealth.TestsMeasureAnswer` | src/fsw/fdir/FDIRManager.cpp:264-296 | the two tests compare the ratio of measured and physical acceleration with a twentieth and a half |
| `WheelHealth.AnswersExist` | src/fsw/fdir/FDIRManager.cpp:264-296 | every history has such ratios |
| `WheelHealth.CallNeverHeals` | src/fsw/fdir/FDIRManager.cpp:237-304 | no call improves any wheel's status, and the failed count never drops |
| `WheelHealth.ForcesAtMostOncePerFailure` | src/fsw/fdir/FDIRManager.cpp:237-321 | over any history the calls that raise the failed count, the only ones that touch the mode, are at most as many as the failed wheels |
| `SensorHealth.MonitorSeesWholeStream` | src/fsw/fdir/SensorHealthMonitor.hpp:53-82 | despite the 100-entry history, counter and status are those of the whole stream since reset, across changes of settings |
| `SensorHealth.FlagsAreAllPairs` | src/fsw/fdir/SensorHealthMonitor.hpp:174-194 | with detection always on there is one comparison for every adjacent pair of readings |
| `SensorHealth.FailedExactlyWhenStuck` | src/fsw/fdir/SensorHealthMonitor.hpp:174-194 | with detection always on, FAILED if and only if the newest pairs, as many as the threshold and at least one, are all within tolerance |
| `SensorHealth.FailedExactlyWhenQuiet` | src/fsw/fdir/SensorHealthMonitor.hpp:53-189 | with detection switched on and off at will: FAILED if and only if it is on and the newest compared readings, as many as the threshold and at least one, have not moved |
| `SensorHealth.DegradedExactlyWhen` | src/fsw/fdir/SensorHealthMonitor.hpp:53-82 | a sensor that is not FAILED is DEGRADED if and only if its newest reading is out of range or jumps, with the detection on, otherwise HEALTHY |
| `SensorHealth.NotificationsAreStatusChanges` | src/fsw/fdir/SensorHealthMonitor.hpp:70-81 | between resets the callback trace is the status trace with repeats removed |
| `SensorHealth.SensorHealthMonitor.constructor` | src/fsw/fdir/SensorHealthMonitor.hpp:40-46 | a fresh healthy record with the default settings |
| `SensorHealth.SensorHealthMonitor.Update` | src/fsw/fdir/SensorHealthMonitor.hpp:53-82 | realises one reading; reports a change exactly when the status changed |
| `SensorHealth.SensorHealthMonitor.AddToHistory` | src/fsw/fdir/SensorHealthMonitor.hpp:149-159 | keeps the newest 100 readings |
| `SensorHealth.SensorHealthMonitor.DetectStuck` | src/fsw/fdir/SensorHealthMonitor.hpp:174-194 | counts or clears the streak and reports whether it has reached the threshold on a still pair |
| `SensorHealth.SensorHealthMonitor.Reset` | src/fsw/fdir/SensorHealthMonitor.hpp:121-126 | back to the initial record without a notification |
| `Redundancy.CriticalFailureResponse` | src/fsw/fdir/FDIRManager.cpp:164-221 | with automatic actions in force, only a primary failing first in its pair is absorbed (DEGRADED); every other critical failure resets the filter and forces SAFE |
| `SensorFaults.MonitorsFollowReadings` | src/fsw/fdir/FDIRManager.cpp:44-91 | in every run each registered sensor's monitor is a function of its own readings since it was registered or reset |
| `SensorFaults.ReadingsRestart` | src/fsw/fdir/FDIRManager.cpp:44-148 | a registration or a reset forgets all readings before it, and every later one counts |
| `SensorFaults.FirstSettings` | src/fsw/fdir/SensorHealthMonitor.hpp:43-250 | a sensor left at its first settings, in numbers: fifty pairs below 1e-6, readings or jumps above 1e9 |
| `SensorFaults.NoticesOfFailures` | src/fsw/fdir/FDIRManager.cpp:83-194 | the failures that reach the redundancy bookkeeping are exactly the failing readings, in their order |
| `SensorFaults.UnpairedFailureResponse` | src/fsw/fdir/FDIRManager.cpp:155-231 | the reading that makes a sensor without a partner fail resets the filter and forces SAFE, as far as these actions are in force, if it is a gyro, and does nothing otherwise |
| `SensorFaults.PowersAreLastSet` | src/fsw/fdir/FDIRManager.cpp:193-230 | the automatic actions in force are those last set |
| `FdirManager.FDIRManager.constructor` | src/fsw/fdir/FDIRManager.cpp:11-19 | no sensors, no groups, four fresh wheels, automatic actions on, no targets |
| `FdirManager.FDIRManager.RegisterRedundantPair` | src/fsw/fdir/FDIRManager.cpp:21-34 | realises a registration in the run theorems |
| `FdirManager.FDIRManager.RegisterSensor` | src/fsw/fdir/FDIRManager.cpp:44-63 | realises a registration in the run theorems, with the given settings |
| `FdirManager.FDIRManager.UpdateSensor` | src/fsw/fdir/FDIRManager.cpp:83-91 | realises one reading of the run theorems: its own monitor, and the responses if its status changed; unknown names change nothing |
| `FdirManager.FDIRManager.HandleStatusChange` | src/fsw/fdir/FDIRManager.cpp:155-162 | realises the response of the run theorems to a status change |
| `FdirManager.FDIRManager.ResetAll` | src/fsw/fdir/FDIRManager.cpp:147-153 | realises a reset of all monitors; pairs, mode and filter stay |
| `FdirManager.FDIRManager.FailOver` | src/fsw/fdir/FDIRManager.cpp:172-194 | the bookkeeping of a failure, and whether the backup has taken over |
| `FdirManager.FDIRManager.ExecuteResponseActions` | src/fsw/fdir/FDIRManager.cpp:164-231 | registry, mode and filter change as the response rules say, for every combination of flags and attached targets |
| `FdirManager.FDIRManager.GetSystemHealth` | src/fsw/fdir/FDIRManager.cpp:111-125 | the worst status of any sensor, in whatever order the monitors are visited |
| `FdirManager.FDIRManager.GetHealthSummary` | src/fsw/fdir/FDIRManager.cpp:127-145 | counts the sensors of each status; the three counts add up to all sensors |
| `FdirManager.FDIRManager.UpdateWheels` | src/fsw/fdir/FDIRManager.cpp:237-322 | realises one call on all wheels and the mode response to the failed count, for any step and for commands that cover the wheels below the speed limit |
| `FdirManager.FDIRManager.UpdateEachWheel` | src/fsw/fdir/FDIRManager.cpp:245-304 | the detection loop updates each reported wheel once and no other |
| `FdirManager.FDIRManager.UpdateWheel` | src/fsw/fdir/FDIRManager.cpp:246-303 | one pass of the loop body is one step of the record, a zero step included |
| `FdirManager.FDIRManager.GetFailedWheelCount` | src/fsw/fdir/FDIRManager.cpp:331-339 | the number of FAILED wheels |
| `FlightSoftware.FlagsCountFailures` | src/fsw/FlightSoftware.cpp:91-95 | healthy flags and failed wheels always add up to four |
| `FlightSoftware.CycleIsSafe` | src/fsw/FlightSoftware.cpp:86-147 | one cycle: allocator flags equal diagnoses, failed wheels idle, outside SAFE the allocation of the returned torque; with two failures SAFE and zero commands if and only if the cycle keeps its commands |
| `FlightSoftware.CommandsBeforeCycles` | src/fsw/FlightSoftware.cpp:13-58 | before the first cycle there are four, all zero |
| `FlightSoftware.FourSpeedsRun` | src/fsw/FlightSoftware.cpp:86-146 | with four speeds in every cycle no command is ever missed |
| `FlightSoftware.RunStaysConsistent` | src/fsw/FlightSoftware.cpp:60-157 | the invariant holds in every run that misses no command, with any number of speeds per cycle, mode changes and switching of the automatic responses in between, and the failed count never drops |
| `FlightSoftware.WheelsFollowCalls` | src/fsw/FlightSoftware.cpp:86-96 | in every run the wheel records are those of the history of calls: the speeds of its four-speed cycles with the commands stored before them |
| `FlightSoftware.AutoModeIsLastSetting` | src/fsw/fdir/FDIRManager.cpp:308-324 | whether wheel failures change the mode is the last setting of the run |
| `FlightSoftware.Controller.constructor` | src/fsw/FlightSoftware.cpp:13-18 | starts at the initial system, with the manager attached to fault detection |
| `FlightSoftware.Controller.ReconfigureAllocator` | src/fsw/FlightSoftware.cpp:91-95 | the allocator's flags become the wheel diagnoses |
| `FlightSoftware.Controller.Detect` | src/fsw/FlightSoftware.cpp:86-96 | realises wheel fault detection and reconfiguration of a cycle |
| `FlightSoftware.Controller.Step` | src/fsw/FlightSoftware.cpp:60-157 | the composition of the four objects realises one cycle of the run theorems; a non-positive step changes nothing |
| `FlightSoftware.Controller.Control` | src/fsw/FlightSoftware.cpp:102-147 | control, allocation and the forced SAFE in the settled mode |
| `Words.MaskIsRemainder` | src/fsw/telemetry/CCSDS.hpp:37-45 | masking a word with n low ones is the remainder by 2^n |
| `Words.ValueOfFromNat` | src/fsw/telemetry/CCSDS.hpp:48 | conversion to a 16-bit word wraps around at 65536 |
| `Words.DoublesReadBack` | src/sim/GroundStation.cpp:34-64 | any double in a list appended in network order reads back from its offset |
| `Ccsds.SetterWritesItsField` | src/fsw/telemetry/CCSDS.hpp:24-50 | every setter writes its own bit field, cut to width, and no other |
| `Ccsds.FieldsDetermineHeader` | src/fsw/telemetry/CCSDS.hpp:17-20 | the fields cover the whole header |
| `Ccsds.SettersCommute` | src/fsw/telemetry/CCSDS.hpp:24-50 | setters of different fields commute |
| `Ccsds.NetworkOrderTwice` | src/fsw/telemetry/CCSDS.hpp:53-57 | the byte-order conversion is its own inverse |
| `Ccsds.ReceivedImage` | src/fsw/telemetry/CCSDS.hpp:53-57 | the little-endian memory image of a converted header reads back as the header, most significant byte first |
| `Ccsds.SentFields` | src/fsw/telemetry/TelemetryService.cpp:13-23 | the seven fields of the header both senders build |
| `Ccsds.StoredLength` | src/fsw/telemetry/CCSDS.hpp:48-50 | the stored length is the total size less one modulo 65536, for every total |
| `Ccsds.CountField` | src/fsw/telemetry/CCSDS.hpp:44-46 | the count field shows a 16-bit counter of uses modulo 16384 |
| `Ccsds.HeaderOnTheWire` | src/fsw/telemetry/CCSDS.hpp:17-57 | the six header bytes as they are sent |
| `Ccsds.Build` | src/fsw/telemetry/TelemetryService.cpp:13-25 | every field set once, then network order |
| `Ccsds.Swap` | src/fsw/telemetry/TelemetryService.cpp:36-41 | the in-place swap loop reverses the eight bytes |
| `Ccsds.AppendDouble` | src/fsw/telemetry/TelemetryService.cpp:32-44 | extends a list of doubles in network order by one |
| `Commands.EncodedHeader` | src/sim/GroundStation.cpp:16-32 | the receiver finds type 1, secondary header, APID 201, the count cut to 14 bits and length total - 1 |
| `Commands.CommandParameterReader.constructor` | src/fsw/telemetry/CommandParameter.hpp:17 | the cursor starts at the payload's beginning |
| `Commands.CommandParameterReader.ReadDouble` | src/fsw/telemetry/CommandParameter.hpp:25-45 | reads and advances, or yields zero in place; the cursor never passes the end |
| `Commands.CommandParameterReader.ReadBool` | src/fsw/telemetry/CommandParameter.hpp:50-53 | reads and advances, or yields false in place |
| `Commands.CommandParameterReader.RemainingSize` | src/fsw/telemetry/CommandParameter.hpp:58-60 | the bytes left |
| `Commands.ParsePacket` | src/fsw/core/CommandParser.cpp:14-73 | the cursor-driven parser, on arbitrary bytes, returns what the parse function says |
| `Telemetry.PacketHeader` | src/fsw/telemetry/TelemetryService.cpp:12-30 | the receiver finds type 0, the APID, the count cut to 14 bits and length total - 1 modulo 65536, for every payload |
| `Telemetry.ProcessInTurn` | src/sim/GroundStation.cpp:112-155 | processing a concatenation of lists is processing them in turn |
| `Telemetry.LastMessageWins` | src/sim/GroundStation.cpp:124-153 | a message with no later one for the same entry is what the ground station shows |
| `Telemetry.OthersAreKept` | src/sim/GroundStation.cpp:124-153 | entries that no message concerns keep what they showed |
| `Telemetry.CounterCountsUses` | src/fsw/telemetry/TelemetryService.cpp:22 | a channel's counter is the number of its packets modulo 65536 |
| `Telemetry.TelemetryService.constructor` | src/fsw/telemetry/TelemetryService.cpp:10 | 2048 zeroed counters |
| `Telemetry.TelemetryService.PreparePacket` | src/fsw/telemetry/TelemetryService.cpp:12-30 | header with the channel's count, room for the payload, and only that counter moved on |
| `Telemetry.TelemetryService.EncodeAttitude` | src/fsw/telemetry/TelemetryService.cpp:46-61 | realises the attitude encoder |
| `Telemetry.TelemetryService.EncodeOrbit` | src/fsw/telemetry/TelemetryService.cpp:63-77 | realises the orbit encoder |
| `Telemetry.TelemetryService.EncodeHealth` | src/fsw/telemetry/TelemetryService.cpp:79-88 | realises the health encoder, for names of any length |
| `GroundStation.Station.constructor` | src/sim/GroundStation.cpp:9-14 | identity attitude, zeros, nothing heard, count 0 |
| `GroundStation.Station.CreateCommandHeader` | src/sim/GroundStation.cpp:16-32 | a numbered command header in network order |
| `GroundStation.Station.CreateSlewToNadirCommand` | src/sim/GroundStation.cpp:66-76 | realises the encoder and moves the count on |
| `GroundStation.Station.CreateSlewToTargetCommand` | src/sim/GroundStation.cpp:78-93 | realises the encoder and moves the count on |
| `GroundStation.Station.CreateSetPidGainsCommand` | src/sim/GroundStation.cpp:95-110 | realises the encoder and moves the count on |
| `GroundStation.Station.ProcessTelemetry` | src/sim/GroundStation.cpp:112-155 | the loop over packets realises the fold of the theorems |
| `GroundStation.Station.ProcessPacket` | src/sim/GroundStation.cpp:114-153 | one packet updates the picture by what it decodes to, or not at all |
| `GroundStation.Station.ReadDouble` | src/sim/GroundStation.cpp:49-64 | reads in network order and advances by eight |
| `TaskScheduler.CallsDueTasksInOrder` | src/fsw/core/TaskScheduler.cpp:81-95 | each cycle calls every due task exactly once, no other, in non-increasing priority |
| `TaskScheduler.RateLaw` | src/fsw/core/TaskScheduler.cpp:73-95 | a fresh task that never throws runs at exactly the multiples of its period in ticks |
| `TaskScheduler.EveryTaskBecomesDue` | src/fsw/core/TaskScheduler.cpp:83-86 | every task has a first due tick |
| `TaskScheduler.PeriodHasTicks` | src/fsw/core/TaskScheduler.cpp:86 | every period has a length in ticks, so every task has a rate law |
| `TaskScheduler.ThrowingTaskIsRetried` | src/fsw/core/TaskScheduler.cpp:87-92 | a task that throws is called again at the next tick |
| `TaskScheduler.CyclesForIsLeast` | src/fsw/core/TaskScheduler.cpp:34-44 | ceil(duration / dt) is the least positive number of cycles that covers the duration |
| `TaskScheduler.TimedRunEnds` | src/fsw/core/TaskScheduler.cpp:34-44 | a run for a positive duration ends after ceil(duration / dt) cycles, earlier only when a callback stops it |
| `TaskScheduler.TasksAreIndependent` | src/fsw/core/TaskScheduler.cpp:82-94 | tasks do not disturb each other's schedule, whichever of them throw, equal names included |
| `TaskScheduler.Scheduler.constructor` | src/fsw/core/TaskScheduler.cpp:9-12 | no tasks, clock at zero |
| `TaskScheduler.Scheduler.RegisterTask` | src/fsw/core/TaskScheduler.cpp:14-23 | adds one task and keeps non-increasing priority |
| `TaskScheduler.Scheduler.ExecuteDueTasks` | src/fsw/core/TaskScheduler.cpp:81-95 | the loop calls the due tasks in order and records their execution time unless they throw; the throwing ones are given by position |
| `TaskScheduler.Scheduler.Step` | src/fsw/core/TaskScheduler.cpp:73-79 | executes at the current time, then advances the clock |
| `TaskScheduler.Scheduler.Run` | src/fsw/core/TaskScheduler.cpp:25-66 | with or without a duration, ends after the first cycle that a stop request or the duration ends, with every task where the clock laws put it |
| `TaskScheduler.Scheduler.Reset` | src/fsw/core/TaskScheduler.cpp:115-122 | removes all tasks and restarts the clock |
| `TaskScheduler.SortedByPriority` | src/fsw/core/TaskScheduler.cpp:18-19 | some arrangement of the same tasks by non-increasing priority |
| `Pid.ClampBounds` | src/fsw/gnc/control/PID.hpp:43-59 | the clamp leaves values within the limit alone and cuts the rest to the limit on their side; bounded if and only if the limit is not negative |
| `Pid.CallIsSaturated` | src/fsw/gnc/control/PID.hpp:34-64 | after a call with positive dt, abs(output) <= limit and, for abs(ki) > 1e-9, abs(ki integral) <= anti-windup limit, each if and only if that limit is not negative |
| `Pid.IntegralIsCut` | src/fsw/gnc/control/PID.hpp:40-63 | what a call remembers: the integral cut to the anti-windup limit on its side, or not at all without an integral gain |
| `Pid.ResetStartsAgain` | src/fsw/gnc/control/PID.hpp:34-70 | after a reset the next call does what it would do in a new controller; until then the last output is repeated |
| `Pid.OutputStaysBounded` | src/fsw/gnc/control/PID.hpp:34-76 | the last output stays within the limit over any run of calls, gain changes and resets |
| `Pid.IntegralStaysBounded` | src/fsw/gnc/control/PID.hpp:34-76 | after every call of a run the integral contribution is within its limit, across gain changes |
| `Pid.IntegralIsErrorSum` | src/fsw/gnc/control/PID.hpp:40-48 | while the integral term never reaches its limit, the stored integral is the sum of error times dt over the whole run |
| `Pid.PID.constructor` | src/fsw/gnc/control/PID.hpp:24-25 | zero integral and outputs, first run |
| `Pid.PID.Calculate` | src/fsw/gnc/control/PID.hpp:34-64 | realises one call of the run theorems |
| `Pid.PID.Reset` | src/fsw/gnc/control/PID.hpp:66-70 | clears integral and error but not the last output |
| `Pid.PID.SetGains` | src/fsw/gnc/control/PID.hpp:72-76 | changes the three gains only |
| `AttitudeController.GainFactorIsMonotone` | src/fsw/gnc/control/AttitudeController.hpp:179-189 | the factor is in [0, 1], never grows with the error, and is 1 or 0 exactly at the two ends |
| `AttitudeController.ScheduledGainsAreBetween` | src/fsw/gnc/control/AttitudeController.hpp:112-119 | scheduled gains lie between the two tuned sets |
| `AttitudeController.GainsFollowAngle` | src/fsw/gnc/control/AttitudeController.hpp:110-189 | which gains are in force: nominal at small errors, the other kp and kd at large ones, divided as the angle in between; ki always nominal |
| `AttitudeController.DampingAlone` | src/fsw/gnc/control/AttitudeController.hpp:127-149 | with no attitude error after a reset the commanded torque is exactly -gain times the rate error |
| `AttitudeController.TuningTakesEffect` | src/fsw/gnc/control/AttitudeController.hpp:155-168 | new gains are in force from the next update, each set where it applies |
| `AttitudeController.LimiterStep` | src/fsw/gnc/control/AttitudeController.hpp:194-210 | one call moves by the smaller of distance and rate dt, and the distance left is exactly what that does not cover |
| `AttitudeController.NegativeRateMovesAway` | src/fsw/gnc/control/AttitudeController.hpp:194-210 | with a negative rate every call moves the torque away from a request it has not met, by exactly that rate |
| `AttitudeController.SlewIsBounded` | src/fsw/gnc/control/AttitudeController.hpp:194-210 | over any run the torque moves by at most rate times the total time |
| `AttitudeController.SlewStaysInBall` | src/fsw/gnc/control/AttitudeController.hpp:194-210 | over any run the torque stays in every ball around zero that holds the start and all requests, however long |
| `AttitudeController.Arrives` | src/fsw/gnc/control/AttitudeController.hpp:194-210 | at a positive rate the target is reached after finitely many equal calls and not before the last |
| `AttitudeController.ControllerSlews` | src/fsw/gnc/control/AttitudeController.hpp:85-168 | the whole controller drives its limiter with the requests it computes since the last reset, over any run with gain changes and resets |
| `AttitudeController.Controller.constructor` | src/fsw/gnc/control/AttitudeController.hpp:65-70 | three nominal PIDs and zero torque |
| `AttitudeController.Controller.Update` | src/fsw/gnc/control/AttitudeController.hpp:112-141 | realises one update: schedule, three PIDs, rate feedback, limiter |
| `AttitudeController.Controller.ApplyRateLimiting` | src/fsw/gnc/control/AttitudeController.hpp:194-210 | realises the limiter and stores the torque |
| `AttitudeController.Controller.SetGains` | src/fsw/gnc/control/AttitudeController.hpp:155-168 | nominal gains reach the axes at once, large-error gains at the next update |
| `AttitudeController.Controller.Reset` | src/fsw/gnc/control/AttitudeController.hpp:144-149 | resets the three axes and the torque |
| `WheelDesaturation.CrossIsPerpendicular` | src/fsw/gnc/control/WheelDesaturation.cpp:129-132 | the double cross product over the squared norm of B is minus the part of h perpendicular to B |
| `WheelDesaturation.TorqueIsOrthogonalToMomentum` | src/fsw/gnc/control/WheelDesaturation.cpp:117-139 | the torque of the dipole in the field is orthogonal to h, contrary to the comment at line 135 |
| `WheelDesaturation.CapacityIsKept` | src/fsw/gnc/control/WheelDesaturation.cpp:21-24 | the capacity is the first positive one that the wheels report |
| `WheelDesaturation.TimerIsStay` | src/fsw/gnc/control/WheelDesaturation.cpp:13-115 | the timer is the time since the phase was entered |
| `WheelDesaturation.DipoleOfReadings` | src/fsw/gnc/control/WheelDesaturation.cpp:18-139 | the dipole that an update returns, from readings and field alone |
| `WheelDesaturation.Desaturator.constructor` | src/fsw/gnc/control/WheelDesaturation.cpp:10-11 | idle, nothing measured |
| `WheelDesaturation.Desaturator.Update` | src/fsw/gnc/control/WheelDesaturation.cpp:13-43 | realises one update and returns the dipole of the theorems |
| `WheelDesaturation.Desaturator.UpdateStateMachine` | src/fsw/gnc/control/WheelDesaturation.cpp:81-115 | realises the state machine |
| `WheelDesaturation.Desaturator.Reset` | src/fsw/gnc/control/WheelDesaturation.cpp:45-48 | idle with the timer at zero; the momenta stay |

## Left out

- Floating-point rounding, NaN and infinities: arithmetic is exact.
- Counter overflow of `int` fields (stuck, degraded and cycle counts): they are unbounded here.
- Memory orders beyond coherence of each index and the ordering of slot accesses by it: a reader gets some
  store no older than its last one, with no promise when a newer one becomes visible.
- SpscQueue.OutsiderSees: what a third thread is told is exact only modulo the capacity, because both
  indices may move between its loads.
- Values of `Capacity` that are not powers of two, zero included: the compile-time test and the index
  arithmetic exclude them.
- Mekf.Filter.UpdateQuat: asks for an invertible innovation covariance, because the source inverts it
  without a test; in sound states with a definite noise matrix there always is one
  (`Mekf.UpdateKeepsSound`).  Matrices have the sizes that their names say.
- Attitude error angle and axis, guidance quaternions, sun and nadir pointing, quaternion sensors: they
  need trigonometry.  Error vector, error angle and controller torques are inputs.
- The estimator inside the control cycle: the estimated rate is an input of a cycle.
- FlightSoftware.Controller.Step: asks for a stored command for every reported wheel below the speed
  limit, because the source indexes without a test; runs end where one is missing.
- FdirManager.FDIRManager.UpdateWheels: asks for a torque for every reported wheel below the speed limit,
  for the same reason.
- AttitudeController.Controller.Update: leaves out a negative maximum torque rate with a request that is
  already met, where the source divides zero by zero.
- AttitudeController.Controller.ApplyRateLimiting: leaves out the same division of zero by zero.
- The mutable reference that `getConfig` of the attitude controller hands out.
- Sensor callbacks as function objects: a monitor's update reports the change and the manager responds.
- The time stamps kept beside a monitor's history: nothing reads them.
- Mode change callbacks, fault messages and all logging.
- TaskScheduler.Scheduler.Run: asks for a run that ends; without a duration and without a stop request
  the source runs forever.
- Wall-clock sleeping, jitter statistics and mutexes of the scheduler; the effect of callbacks beyond
  being called, throwing and requesting a stop.
- The order of equal priorities after registration: the library sort does not fix it.
- Command queueing, telemetry scheduling, state history, data store: simple buffers.
- Orbit and attitude dynamics, sensor models, Monte Carlo and optimisation: numerical simulation.
