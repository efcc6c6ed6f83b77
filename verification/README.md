# nullCAT: a verified model of its state machines and numeric kernels

nullCAT drives motion rigs over EtherCAT in real time. This project models, in Dafny, the parts of it that decide what
moves and when, and proves what they promise on every run. `dafny verify dfyconfig.toml` checks all of it.

| file | what it models |
|---|---|
| BusOwnership, BusShutdown, BusRequest, BusRequests | who may exchange frames: initialization, the persistent dispatch thread (bridge, then pump), the control loop and shutdown, as interleaved atomic steps; the stop and fault-reset requests they serve |
| CommandConditioner, CommandSafety, Pursuit, BrakingBand, BandCarry, CommandGauge, CommandGaugeExact | the three command modes over one guard chain, the bounds it gives at a standing and at a moving target, the gauge beside it |
| DcPhaseLock, DriftLock, DriftGains | the clamped PI that locks the loop's period to the drives' clock, and the closed loop: which drifts it locks out with which gains |
| A6Drive, DriveEnable, DriveReset, DriveTarget | one drive: status, enable and fault-reset machines, position targets; composed with a CiA 402 drive over a bus that loses frames |
| DriveFault, DriveLockout | the fault monitor with its retries and lockouts, composed with the drives it resets |
| Recovery, RecoveryRuns, RecoveryActs | the scan that brings dropped slaves back |
| EstopFilter, GpioPanel, PanelRuns, PanelActions | the wired panel: e-stop filter and latch, the RUN button and its chains |
| CarCache | the most-recently-driven list of learned gear ratios |
| SortedMap, CarTable | the per-car table: two layers, a name index, prefix lookups |
| Commissioning, CommissioningRuns, CommissioningPace, Identification | the excitation engine and what it measures |
| RealArithmetic | facts about products of reals |

## How it is modelled

Each component that updates its fields in place is a class whose methods are proved equal to a function of the old
state; lemmas then prove what the component promises about that function, over all inputs and all runs. Fields that
change together are grouped into small records. The hand-over of the bus is a state machine instead: every load and
store of an atomic flag is a step of its own, and all interleavings are covered. The condition under which it works is
stated as `Disciplined`: the loop is launched while no initialization or shutdown is under way, and these begin while no
loop runs. It is a condition, not a fact about the callers: see below.

Doubles are reals. A square root is a non-negative number with the right square, a sine or cosine a number in range or
a point of the unit circle, a target that is not finite an option. What comes from the bus, the drives, the buttons or
the status snapshots is adversarial: any value, lost frames, crashed calls, late or repeated answers.

## Where the code and what it says differ

The model follows the code. These came out of the proofs; each is a lemma below, with the exact condition where the
code meets the property on some inputs only.

- One owner of the bus at a time holds under `Disciplined`, and the callers do not keep it. /api/start
  (src/WebServer.cpp:1574-1584), /api/run-toggle (src/WebServer.cpp:2613-2630) and the RUN button (pi/GpioPanel.cpp:296-300)
  look at `isOperational()` and not at whether an initialization or shutdown is under way. The master is operational from
  before the pump is started (src/EtherCATMaster.cpp:2381-2384) until nearly the end of a shutdown (src/EtherCATMaster.cpp:3516), so a start in
  either window is let through and can put two threads on the bus (`EarlyLaunchBreaksExclusion`). For a launch the
  condition is exact (`LaunchIsTheCondition`).
- A shutdown is begun without waiting for a loop that does not report itself running yet (pi/main_headless.cpp:465-477),
  or at all (src/MainWindow.cpp:1614-1618). Two owners can come of that exactly if the loop is up to claim the bus or has
  it (`ShutdownIsTheCondition`). A loop that is past its last frame cannot collide, but it clears the stop flag when it
  restarts the pump, and a shutdown that has already stored it then waits for a pump nobody stops; that too is exact
  (`HangIsTheCondition`, `HungForGood`, `ShutdownMeetsALoop`).
- A stop asked amid an initialization waits through all of its frames (`InitializationSendsOn`).
- A drive is never enabled on an unsynchronised target, unless it is already in Switched On or Operation Enabled when
  the loop starts (`StartIsTheCondition`, exact), or a parking write meets it in Switched On and asked to enable
  (`ParkIsTheCondition`, exact; `HarmIsReached`).
- The parser wants the quick-stop bit clear in Switch On Disabled, which the standard leaves open
  (`ParseReadsTheTable`); disableOperation's 0x0003 is Quick Stop to the standard (`DisableEnds`).
- The fifth reset attempt gets a single step before the lockout, which is why it is the 406th Fault step
  (`LockedByThe406thFaultStep`). The moment of an earlier recovery is kept, so a drive that flaps after one is never
  locked out (`FlappingAfterRecoveryIsNotLocked`), and a recovery leaves the drive's reset sequence half done for the
  next fault (`RecoveryLeavesTheReset`). The branch for a fault cleared by the reset cannot be taken in the loop
  (`ResetNeverClearsInTheLoop`).
- The two scans that mark a slave lost need not be consecutive (`NotConsecutive`); a slave is asked for OP with its SYNC0
  disarmed exactly when it shows SAFE_OP by itself after its last walk failed (`OpWithoutSync`), an address recovery in
  between or not (`ReaddressedUnclocked`); a capped slave in INIT is not offered its address back (`CappedIsLeftAlone`).
- The compensator locks a drift out only if the integral gain is small enough for the cycle (`DriftGains.LocksExactly`,
  exact); the configured gains are taken as they are (src/Config.cpp:161-164).
- The circular phase error is within half a cycle only for differences within a cycle and a half, and then at both ends
  included (`CircularErrorIsNearest`).
- One panel poll can start the loop twice (`TwoStartsExactly`, `TwoStartsReached`).
- A normalised key is not always its own (`NormalKeyIsIdempotent`, `ALaterGameMovesTheKey`).
- A commissioning run goes home from the outputs of the cycle before its last, which are the last ones only under a
  condition (`ReturnJumps`).
- With the braking clamp off in a band around the target, the overshoot bound is that of the band (`BandBound`); a
  velocity that cannot be stopped in the band keeps it under an exact condition (`BandIsExact`,
  `EveryStartIsDecided`, `InsideTheBandNothingBrakes`).

## Model

| member | source | states |
|---|---|---|
| BusOwnership.MutualExclusion | src/EtherCATMaster.cpp:2558-2838 | Under Disciplined, which the callers do not keep, at most one of initialization, dispatch thread, control loop and shutdown is between owning the bus and giving it up, in every interleaving |
| BusOwnership.StepKeepsInv | src/EtherCATMaster.cpp:2558-2838 | Under Disciplined, every atomic step of every thread keeps the invariant behind the hand-over: who may rely on the dispatch being quiet, and what the busy, stop and request flags then say |
| BusOwnership.RequestsConserved | src/EtherCATMaster.cpp:3646-3654 | Under Disciplined, each group of stop or fault-reset requests is carried out once, dropped once or still pending; since a pending stop was asked at most one frame of dispatch or loop has gone out, and none of an initialization or shutdown unless the stop was asked amid it |
| BusOwnership.InitializationSendsOn | src/EtherCATMaster.cpp:690-700 | The exception is real: a stop asked after an initialization has cleared the requests waits through any number of its frames |
| BusOwnership.WhoTakesRequests | src/EtherCATMaster.cpp:3436-3446 | Under Disciplined, only a shutdown or a new session drops a request; only an owner of the bus carries one out, and only the loop a fault reset |
| BusOwnership.ResetSurvivesThePump | src/EtherCATMaster.cpp:1934-1952 | A fault reset asked while no loop runs survives any number of bridge and pump frames |
| BusOwnership.LoopFrameServesTheReset | src/EtherCATMaster.cpp:3520-3535 | A pending fault reset is started before the next frame of the loop goes out |
| BusRequests.ClearDropsBoth | src/EtherCATMaster.cpp:3439-3446 | Over every disciplined run, the step out of the clear of a new session or a shutdown leaves no stop and no fault reset asked, and counts what was pending as dropped |
| BusRequests.CarriedWasAskedSince | src/EtherCATMaster.cpp:690-697 | Over every disciplined run, a stop or a fault reset that is carried out after such a clear was asked after it: no loop resets drives for a fault of an earlier session |
| BusRequests.AskingIsRecorded | src/BusRequest.h:31-31 | Asking makes a request pending, and opens a group exactly when none was |
| BusRequests.FramesAreCounted | src/EtherCATMaster.cpp:3646-3654 | Every frame of a thread that has the bus counts against a pending stop, and nothing else does |
| BusRequests.LoopFlagIsTheLoop | src/ControlLoop.cpp:142-147 | In every interleaving, disciplined or not, the loop flag is up exactly from the claim of the bus to its release |
| BusRequests.StartNotNeeded | src/EtherCATMaster.cpp:2824-2838 | startPump does nothing without a session, with the pump running, or once the dispatch thread was told to end |
| BusRequests.BridgeSendsTen | src/EtherCATMaster.cpp:1934-1952 | A dispatch that is not stopped bridges the start of the pump with exactly ten frames |
| BusOwnership.SpinProgress | src/EtherCATMaster.cpp:2558-2572 | Under Disciplined, while stopPump waits every step of the dispatch thread strictly lowers its distance to clearing the busy flag, and no step of anyone else but the waiting thread changes it |
| BusOwnership.SpinIsBounded | src/EtherCATMaster.cpp:2558-2572 | Under Disciplined, stopPump is released after at most six steps of the dispatch thread, in every interleaving with any steps of the other threads, and these steps can always be taken, at most after the unlock that ends an initialization |
| BusOwnership.JoinEnds | src/EtherCATMaster.cpp:3427-3434 | Under Disciplined, the join in shutdown ends: the dispatch thread can move and its next step is its last |
| BusOwnership.EarlyLaunchBreaksExclusion | src/EtherCATMaster.cpp:2381-2384 | Two reached states in which the code lets a launch through, the master being operational: the tail of an initialization and the head of a shutdown; from both it can go on to two owners of the bus |
| BusOwnership.LaunchIsTheCondition | src/WebServer.cpp:1574-1584 | After any disciplined run, a launch the code lets through can lead to two owners if and only if an initialization or a shutdown is under way: what /api/start and RUN do not check is exactly what is missing |
| BusShutdown.ShutdownIsTheCondition | src/MainWindow.cpp:1614-1618 | After any disciplined run, a shutdown the code lets begin can lead to two owners of the bus if and only if a loop is then up to claim it or has it |
| BusShutdown.HangIsTheCondition | src/EtherCATMaster.cpp:2558-2572 | After any disciplined run, such a shutdown can come to wait for a pump that nobody will stop if and only if a loop is then yet to clear the stop flag in its own startPump, the first steps of that included |
| BusShutdown.HungForGood | src/EtherCATMaster.cpp:2558-2572 | From such a state every run stays in it, short of a crashed exchange |
| BusShutdown.SealedWaitIsBounded | src/EtherCATMaster.cpp:2558-2572 | With a loop past that point the shutdown's wait ends: at most six dispatch steps are to come in every interleaving, and they can be taken |
| BusShutdown.ShutdownMeetsALoop | pi/main_headless.cpp:465-477 | Two reached states in which the code lets a shutdown begin: with a loop just launched, where it can end with two owners or such a wait, and with a loop on its way to restart the pump, where it can end with such a wait and never with two owners |
| BusRequest.BusRequest.Request | src/BusRequest.h:31-31 | A request opens a group only when none is pending |
| BusRequest.BusRequest.Take | src/BusRequest.h:35-39 | A take carries out the pending group, once |
| BusRequest.BusRequest.Clear | src/BusRequest.h:42-42 | A clear drops the pending group |
| CommandConditioner.Conditioner.SeedState | src/CommandConditioner.h:136-142 | A seed sets the commanded state, forgets the estimate and restarts the window, and leaves the latched statistics |
| CommandConditioner.Conditioner.ResetGuardStats | src/CommandConditioner.h:112-117 | A statistics reset changes nothing of the command |
| CommandConditioner.Conditioner.UpdateTargetVel | src/CommandConditioner.h:150-172 | The target-velocity estimate after a frame, a held target or a missing frame interval |
| CommandConditioner.Conditioner.ApplyGuard | src/CommandConditioner.h:177-261 | The guard chain leaves the motion and the statistics the specification gives, and the ring in step with the history |
| CommandConditioner.Conditioner.ReadWindow | src/CommandConditioner.h:246-253 | The gauge reads the velocity of exactly W cycles ago out of the ring |
| CommandConditioner.PushHolds | src/CommandConditioner.h:246-258 | After a push every slot of the ring still holds the velocity of the cycle as far back as the slot is from the head |
| CommandConditioner.Conditioner.StepBypass | src/CommandConditioner.h:265-273 | A Bypass cycle is the specification's cycle |
| CommandConditioner.Conditioner.StepInterpolate | src/CommandConditioner.h:280-290 | An Interpolate cycle is the specification's cycle |
| CommandConditioner.Conditioner.StepFilter | src/CommandConditioner.h:293-304 | A Filter cycle is the specification's cycle |
| CommandSafety.AccelClampIsOneStep | src/CommandConditioner.h:189-190 | Clamping the demanded acceleration is clamping the candidate velocity to amax*dt around the current one |
| CommandSafety.VelocityBounds | src/CommandConditioner.h:177-224 | From any state, with any target, estimate and square root: abs(vel) <= vmax, abs(vel) grows by at most amax*dt, a reversal changes vel by at most amax*dt, and without a bind so does every cycle |
| CommandSafety.NextIsOdd | src/CommandConditioner.h:265-304 | Reflecting the session reflects every cycle, in all three modes: the conditioner has no preferred direction |
| CommandSafety.CycleFromBelow | src/CommandConditioner.h:177-231 | One cycle towards a stationary target: from short of it the overshoot is at most amax*dt^2/2, and the carry-over bound is kept |
| CommandSafety.OvershootBound | src/CommandConditioner.h:150-290 | On any run to a stationary target with brakeEps 0, at any start velocity and any mix of Bypass and Interpolate: never more than amax*dt^2 past it, at most half of that in a crossing step, and within amax*dt^2 for good once reached |
| CommandSafety.OvershootIsTight | src/CommandConditioner.h:177-231 | A run that overshoots by exactly amax*dt^2 |
| CommandSafety.HeldTargetComesToRest | src/CommandConditioner.h:145-172 | A target that stops keeps its last estimated velocity until it has been held for more than two frame intervals, and has velocity zero from then on |
| CommandSafety.CleanStreamPassesThrough | src/CommandConditioner.h:263-273 | A Bypass step that no clamp has to limit ends exactly on the target |
| Pursuit.EstimateIsTheVelocity | src/CommandConditioner.h:156-166 | From the second frame of a target that moves at a velocity the estimate is that velocity, and the prediction error its distance from the estimate before |
| Pursuit.FillClosesItsShare | src/CommandConditioner.h:280-290 | An unlimited Interpolate cycle closes exactly dt/frameSec of the gap, and without a known interval all of it, as Bypass does |
| Pursuit.FilterIsCriticallyDamped | src/CommandConditioner.h:293-304 | A Filter cycle is the step of a critically damped low-pass: on the slow curve vel = wn*err the velocity decays by just the decay |
| Pursuit.BrakesExactlyWhenNeeded | src/CommandConditioner.h:198-204 | For any estimate, beyond the band the brake binds if and only if the closing velocity, measured against the target's own, cannot be shed by the acceleration limit within the gap; any other velocity is not cut |
| Pursuit.BrakesToTheCurve | src/CommandConditioner.h:200-224 | Where it binds on a target that runs away, the closing velocity ends at the square root, or at what vmax leaves |
| Pursuit.PursuitBound | src/CommandConditioner.h:150-290 | The overshoot bound in the frame of a target moving away at constant velocity: never more than amax*dt^2 past it, at most half of that in the cycle that catches up |
| Pursuit.PursuitBoundDown | src/CommandConditioner.h:150-290 | The same behind a target that moves down |
| BrakingBand.Decelerate | src/CommandConditioner.h:189-194 | A stride that shrinks by amax*dt^2 a cycle uses up exactly the room it travels |
| BrakingBand.BandBound | src/CommandConditioner.h:198-224 | With the braking clamp off in a band of brakeEps: every run that starts outside it, or inside it at a velocity that the room there can stop in both directions, is within 5/2 brakeEps + 9/8 amax*dt^2 of the target once in the band, and never passes the target by more |
| BandCarry.BandIsExact | src/CommandConditioner.h:189-224 | From any cycle in the band or past the target that moves too fast to stop before it, the bound holds for good if and only if what the velocity carries while it is shed is at most the gap and the bound together |
| BandCarry.EveryStrideStops | src/CommandConditioner.h:189-194 | With an acceleration limit every velocity is shed in some number of cycles, so that the condition is defined |
| BandCarry.ShortUntilCarried | src/CommandConditioner.h:189-224 | A run from inside the band stays between its start and the target until the first cycle that moves too fast to stop before the target |
| BandCarry.EveryStartIsDecided | src/CommandConditioner.h:189-224 | For every start inside the band at no more than vmax: the whole run keeps the bound if and only if what the first such cycle carries fits |
| BandCarry.InsideTheBandNothingBrakes | src/CommandConditioner.h:198-198 | A run from inside the band that passes the target by more than the bound |
| CommandGauge.StatsNeverReachTheCommand | src/CommandConditioner.h:112-117 | Two runs with different statistics and statistics resets at different moments command the same |
| CommandGauge.RunKeepsLinked | src/CommandConditioner.h:241-260 | Over any cycles, seeds and resets the remembered velocities end with the current one, lie within vmax and step by at most amax*dt where the brake did not bind |
| CommandGauge.QuietWindowReadsTheLimit | src/CommandConditioner.h:247-253 | After any run, a cycle whose window holds no bind raises the latched windowed acceleration to amax at most |
| CommandGaugeExact.GaugeLatches | src/CommandConditioner.h:181-240 | What a cycle does to every counter and every latched peak, in terms of the readings |
| CommandGaugeExact.WindowIsTwentyMs | src/CommandConditioner.h:246-250 | The window is the number of cycles nearest to 20 ms, from one to 128 |
| CommandGaugeExact.DemandIsTheShare | src/CommandConditioner.h:181-187 | The demand is the acceleration asked for in units of the limit, and over one exactly when the candidate is more than amax*dt away |
| CommandGaugeExact.EstimateBegins | src/CommandConditioner.h:150-166 | The first frame only anchors, the first move judges no prediction, every later one does |
| CommandGaugeExact.SeedHandsOver | src/CommandConditioner.h:136-142 | A seed hands over position and velocity at no acceleration, holds its position against a target that is not finite, and starts the estimate anew |
| DcPhaseLock.Compensator.Next | src/DcPhaseLock.h:90-131 | The compensator's update returns the specified period and leaves the specified state |
| DcPhaseLock.CircularErrorIsNearest | src/DcPhaseLock.h:107-110 | The circular error is congruent to the difference and within half a cycle exactly while the difference is within a cycle and a half |
| DcPhaseLock.IntegratorBounded | src/DcPhaseLock.h:116-126 | On every run from a reset the integrator stays within (maxTrim/dt + kp*half)/ki + half*dt |
| DcPhaseLock.PeriodWithinClamp | src/DcPhaseLock.h:119-130 | The period never leaves nominal by more than the rounded clamp, whatever the gains |
| DcPhaseLock.ElapsedWithinClamp | src/DcPhaseLock.h:90-131 | Over n cycles the accumulated period differs from n nominal ones by at most n rounded clamps |
| DcPhaseLock.PeriodIsTheTrim | src/DcPhaseLock.h:126-130 | The period that goes out is the trim in counts to the nearest, a half away from nominal: lengthened by a positive trim, shortened by a negative one |
| DcPhaseLock.PeriodPullsBack | src/DcPhaseLock.h:107-130 | The trim is minus dt*(kp*e + ki*integ) up to the clamp, the error is integrated exactly when the clamp is not exceeded, and a phase behind the target never shortens the period nor one ahead lengthens it unless the integrator outweighs it |
| DcPhaseLock.PrimesAfterTheWarmup | src/DcPhaseLock.h:90-106 | Over any samples from a reset: the first warmupCycles phases only count, the next one sets the target, and none later moves it |
| DcPhaseLock.NominalUntilPrimed | src/DcPhaseLock.h:90-100 | Through the warm-up and without a sample the period is nominal, and a missing sample changes nothing |
| DcPhaseLock.UpdateIsTheResponse | src/DcPhaseLock.h:106-130 | The response the closed loop is made of is that of the update, at every whole nanosecond |
| DcPhaseLock.LoopIsThePlant | src/DcPhaseLock.h:106-130 | The plant of the lock-out results is the loop of the update itself, phase moved by drift and trim, for as long as the error stays within half a cycle |
| DcPhaseLock.Contraction | src/DcPhaseLock.h:106-130 | Closing the loop with a constant drift, an unsaturated cycle multiplies e^2 + kp*e*J + ki*J^2 by exactly 1 - kp*dt + ki*dt^2 |
| DcPhaseLock.FormDominatesError | src/DcPhaseLock.h:116-117 | With kp^2 < 4*ki that form is positive definite and bounds the phase error |
| DcPhaseLock.EnergyAfter | src/DcPhaseLock.h:106-130 | Over cycles that do not saturate, that form is after n cycles exactly the n-th power of the rate times what it was |
| DcPhaseLock.HeadroomSuffices | src/DcPhaseLock.h:116-126 | A start whose form bounds the command so that it and the drift fit the clamp never saturates |
| DcPhaseLock.DriftLockedOut | src/DcPhaseLock.h:106-130 | For gains with kp^2 < 4*ki: a run on which no cycle saturates locks its drift out, whatever it starts from: for every tolerance the phase error is below it from some cycle on |
| DriftLock.DirectContraction | src/DcPhaseLock.h:106-130 | For gains with 2*ki <= kp^2, from any phase and any integrator: a cycle at the clamp takes a fixed amount off a sum of squares of the state, any other a fixed part of it |
| DriftGains.EnergyFalls | src/DcPhaseLock.h:106-130 | The same of the form e^2 + kp*e*J + ki*J^2 for all other gains with ki*dt < kp, once the integrator alone is not what holds the loop at the clamp |
| DriftGains.NeverWoundAgain | src/DcPhaseLock.h:119-126 | Once the integrator alone does not hold the loop at the clamp, it never does again, whatever the cycle does |
| DriftGains.LocksExactly | src/DcPhaseLock.h:106-130 | For any gains and any cycle no longer than the proportional time (kp*dt <= 1), from every state, saturating or not: a constant drift is locked out if and only if it is smaller than the clamp and ki*dt < kp |
| DriftGains.NothingSettles | src/DcPhaseLock.h:106-130 | With ki*dt >= kp no state but rest settles |
| DriftGains.DefaultsLockExactly | src/DcPhaseLock.h:51-61 | With the default gains, at every loop rate from 100 Hz up, exactly the drifts below the clamp are locked out, with and without the cycle of latency |
| DriftLock.DelayedContraction | src/ControlLoop.cpp:164-186 | The same fall with the trim applied a cycle late, as the control loop does, for gains with 8*kp^3*dt <= ki besides |
| DriftLock.DelayedLocksExactly | src/ControlLoop.cpp:164-186 | The loop with its cycle of latency locks a constant drift out from every state its moves can have left if and only if the drift is smaller than the clamp |
| DriftLock.NothingLocks | src/ControlLoop.cpp:164-186 | A drift beyond the clamp is locked out from no state at all |
| A6Drive.ParseReadsTheTable | src/A6Drive.cpp:607-618 | Every statusword of the standard is read as its state except Switch On Disabled with the quick-stop bit set, which is read as Unknown |
| A6Drive.ParseInventsNothing | src/A6Drive.cpp:607-618 | What is read as a state other than Fault shows that state |
| A6Drive.HandshakeKeepsTheCommand | src/A6Drive.cpp:474-490 | The profile-position handshake never changes the command the controlword carries, and alternates the set-point bit |
| A6Drive.A6Drive.UpdateStatus | src/A6Drive.cpp:575-594 | A bad frame leaves the status alone |
| A6Drive.A6Drive.StepEnableStateMachine | src/A6Drive.cpp:163-279 | One enable step: status, sync counter and outputs as specified; true exactly in Operation Enabled |
| A6Drive.A6Drive.StepFaultReset | src/A6Drive.cpp:320-366 | One fault-reset step: the pulse sequence, the timeout after a hundred cycles, the return to enabling |
| DriveEnable.EnableWaitsForTheSync | src/A6Drive.cpp:200-249 | Over any frames: Enable Operation is written in Switched On exactly after more than syncCycles consecutive steps that saw it, every earlier one writing Switch On with target = actual |
| DriveEnable.StepKeepsInv | src/A6Drive.cpp:163-279 | What ties a CiA 402 drive, the last frame it received, the pending one and the status the master goes by, kept by every frame, device move and act of the master |
| DriveEnable.NeverEnabledUnsynced | src/A6Drive.cpp:163-279 | Whatever is lost or late, and in whatever order the master enables, disables, resets and parks, stops of the loop included: a drive takes transition 4 only on a frame whose target is the actual position it was written with, after a full sync. A parking write to a drive the master goes by as Switched On and has asked to enable is the one event excepted |
| DriveEnable.ParkIsTheCondition | src/ControlLoop.cpp:1088-1097 | After any such run, a parking write can lead to an unsynchronised enable if and only if the drive is in Switched On, has been asked to enable and is given another target; the guard the master could check covers this |
| DriveEnable.HarmIsReached | src/ControlLoop.cpp:1088-1097 | Such a moment is reached from the boot, whatever the sync length |
| DriveEnable.DisableEnds | src/A6Drive.cpp:303-307 | Whatever a drive does by itself, it is not enabled once it has obeyed a disable and does not become so while the last frame it received is one |
| DriveReset.ResetsExactly | src/A6Drive.cpp:320-366 | Against a drive that leaves Fault on a rising edge of the reset bit once the cause is gone: through a whole reset it is out of Fault if and only if one of the rises, at steps 6, 20, 40, 60, 80 and 100, found the cause gone |
| DriveReset.ClearFaultIsReset | src/A6Drive.cpp:333-351 | A fault whose cause is gone is reset by the sixth step whatever stood in the controlword, and by the sixteenth the drive is being enabled again |
| DriveReset.GivesUp | src/A6Drive.cpp:353-360 | A hundred steps without that leave the drive in Fault, and the machine gives up at the next |
| DriveReset.ClearedMeansEnabled | src/A6Drive.cpp:344-351 | Cleared is reported exactly when fifteen steps are behind it and the drive is enabled, and then the reset is over |
| DriveReset.EnablesInTime | src/A6Drive.cpp:163-279 | With frames delivered, enabling takes a drive from Switch On Disabled to Operation Enabled in exactly syncCycles + 3 steps, and keeps it there |
| DriveEnable.EnabledOnlyFromSwitchedOn | src/A6Drive.cpp:234-243 | Operation Enabled is reached from Switched On only, or back from a quick stop that began there |
| DriveEnable.StartedEnabled | src/A6Drive.cpp:294-301 | A drive still enabled when the loop starts can be enabled again on an unsynchronised target, whatever the sync length |
| DriveEnable.StartIsTheCondition | src/A6Drive.cpp:163-279 | The exact condition on the drive when the loop starts: it can be enabled on an unsynchronised target if and only if it is then in Switched On or Operation Enabled |
| DriveTarget.PositionTarget.SetTargetPosition | src/A6Drive.cpp:432-487 | The target is the clamped, rate-limited request in counts, with the handshake |
| DriveTarget.PositionTarget.SetTargetPositionRaw | src/A6Drive.cpp:533-551 | A raw target passes unlimited and is where the rate limiter goes on from |
| DriveTarget.TargetsAreLimited | src/A6Drive.cpp:438-468 | Whatever is requested: targets are at most two rate limits apart, never further outside the limits than before, and inside from the first that is |
| DriveTarget.StandingRequestIsReached | src/A6Drive.cpp:451-468 | A standing request is closed by exactly two rate limits a cycle and never passed |
| DriveTarget.RequestReadsBack | src/A6Drive.cpp:557-605 | A request inside the limits reads back, once reached, as itself less than one count short toward the raw zero |
| DriveTarget.FrameDirection | src/A6Drive.cpp:432-440 | Zero is home, and distances are kept, in the direction the frame sign says |
| DriveTarget.CountsRead | src/A6Drive.cpp:595-605 | Counts are read back by the scale, or as zero without one |
| DriveFault.DriveFaultMonitor.Step | src/DriveFaultMonitor.cpp:51-164 | One step for one drive: its track, the drive and the result as specified, the other tracks untouched; a drive beyond the eighth gets an empty result |
| DriveFault.DriveFaultMonitor.ClearLockout | src/DriveFaultMonitor.cpp:35-42 | Clears one drive's lockout, retries and fault, and no other's |
| DriveFault.DriveFaultMonitor.IsAnyFaultSeen | src/DriveFaultMonitor.cpp:44-49 | True exactly when some drive's fault is seen |
| DriveLockout.RunKeepsSound | src/DriveFaultMonitor.cpp:35-164 | Over any operations: 0 <= retries <= 5, locked implies a seen fault and 5 retries, and a reset attempt belongs to a seen fault |
| DriveLockout.AllClear | src/DriveFaultMonitor.cpp:104-145 | The all-clear is raised exactly when a step ends a seen fault and none is left; then no drive is locked out |
| DriveLockout.LockoutStays | src/DriveFaultMonitor.cpp:60-65 | Nothing but a cleared lockout or a reset ends a lockout; until then every step asks for a disable and nothing else |
| DriveLockout.ResultsAreExact | src/DriveFaultMonitor.cpp:51-164 | When a step reports a first fault, the lockout (once), a disable, a seed, a skipped enable machine, each as an equivalence on the track before and after |
| DriveLockout.RecoversAfterAHundred | src/DriveFaultMonitor.cpp:130-146 | A seen fault counts as recovered exactly after a hundred cycles in Operation Enabled without a break |
| DriveLockout.RetriesAreForgiven | src/DriveFaultMonitor.cpp:154-161 | Retries are forgiven exactly more than 500 cycles after a recovery |
| DriveLockout.ClearStartsOver | src/DriveFaultMonitor.cpp:35-42 | A cleared lockout starts the drive over: not disabled, its next fault a first one with all its retries |
| DriveLockout.ElapsedWraps | src/DriveFaultMonitor.cpp:130-161 | Distances of the 64-bit cycle counter are taken across its wrap |
| DriveLockout.ResetNeverClearsInTheLoop | src/ControlLoop.cpp:719-745 | The loop fetches the state and steps the reset on one frame, so the reset step never finds the fault gone |
| DriveLockout.LockedByThe406thFaultStep | src/DriveFaultMonitor.cpp:68-127 | A drive that has not recovered since the monitor's reset is locked out exactly when its Fault steps, and the steps of a reset sequence that this reset left half done, come to 406: after 306 to 406 Fault steps, however it flaps between them |
| DriveLockout.FlappingAfterRecoveryIsNotLocked | src/DriveFaultMonitor.cpp:154-161 | A drive that recovered long ago is never locked out while it shows no fault at least once in every 306 Fault steps |
| DriveLockout.RecoveryLeavesTheReset | src/DriveFaultMonitor.cpp:130-146 | A recovery ends the monitor's attempt but not the drive's reset sequence: the next fault's attempt goes on where it stopped |
| Recovery.Recovery.DoRecoveryScan | src/EtherCATMaster.cpp:3188-3397 | One scan takes every slave's turn on the states read at its start, stops where a stop is noticed, and does nothing after a crashed read |
| Recovery.Recovery.TakeTurn | src/EtherCATMaster.cpp:3210-3397 | A slave's turn through the four branches and the address recovery, with what it does on the bus |
| RecoveryRuns.TurnIsOrdered | src/EtherCATMaster.cpp:3244-3329 | SYNC0 is armed only after a disarm and a walk that reached SAFE_OP in the same turn; OP is requested only of a slave that reads SAFE_OP or after such a walk; a capped slave is not walked |
| RecoveryRuns.RunTallied | src/EtherCATMaster.cpp:3174-3186 | On every run at most five walks in a row fail without an address recovery; and a clocked slave's SYNC0 is armed exactly when it has not been walked yet or its last walk reached SAFE_OP |
| RecoveryRuns.LostTakesTwo | src/EtherCATMaster.cpp:3337-3371 | A slave is marked lost only by the second of two scans that confirmed NONE, with none between that read it above NONE |
| RecoveryRuns.NotConsecutive | src/EtherCATMaster.cpp:3344-3348 | The two need not be consecutive: a scan whose check finds the slave alive does not withdraw the first |
| RecoveryRuns.CappedIsLeftAlone | src/EtherCATMaster.cpp:3249-3251 | A capped slave in a state the walk is for is left alone entirely, the address recovery included |
| RecoveryRuns.OpWithoutSync | src/EtherCATMaster.cpp:3233-3241 | OP is requested of a clocked slave with its SYNC0 disarmed if and only if it reads SAFE_OP and its last walk failed, however many scans ago |
| RecoveryRuns.ReaddressedUnclocked | src/EtherCATMaster.cpp:3373-3395 | Recovering the address after a failed walk clears the failure count and arms nothing: the slave is then asked for OP disarmed |
| RecoveryActs.TurnActsExactly | src/EtherCATMaster.cpp:3210-3397 | When a turn acknowledges, requests OP, disarms, walks, arms, notes, marks lost and recovers the address, each as an equivalence, by the state numbers of the standard |
| RecoveryActs.ThinMarginArmsTwice | src/EtherCATMaster.cpp:3290-3322 | A thin start-time margin is armed a second time |
| RecoveryActs.TurnLeaves | src/EtherCATMaster.cpp:3210-3397 | The state, the counts and the marks a turn leaves |
| RecoveryActs.StoppedScanOnlyReads | src/EtherCATMaster.cpp:3188-3205 | A scan stopped before the slave's turn has read its state and done nothing else |
| RecoveryActs.DroppedSlaveComesBack | src/EtherCATMaster.cpp:3220-3241 | A slave in SAFE_OP with an error is acknowledged, and asked for OP as soon as it shows SAFE_OP |
| EstopFilter.EstopFilter.Poll | src/EstopFilter.h:30-48 | One poll of the level filter |
| EstopFilter.EventsAreExact | src/EstopFilter.h:30-48 | Engaged exactly on the read that completes engageN open ones in a row while released; Released exactly on the one that completes releaseN closed ones while engaged |
| EstopFilter.EventsAlternate | src/EstopFilter.h:30-48 | Engaged and Released alternate, Engaged first |
| EstopFilter.BlipIsAShortRun | src/EstopFilter.h:33-40 | A blip is an open run that ended before it engaged, reported once with its length |
| EstopFilter.ReleaseTime | src/EstopFilter.h:52-58 | At any poll period up to a second the panel's release takes half a second to within half a poll |
| EstopFilter.CountsAreAtLeastOne | src/EstopFilter.h:20-28 | A count below one is taken as one, a poll period below a millisecond as one |
| GpioPanel.GpioPanel.PollOnce | pi/GpioPanel.cpp:162-366 | One poll: the latch, the debounced RUN press and the two chains, with the callbacks made |
| GpioPanel.GpioPanel.Run | pi/GpioPanel.cpp:131-366 | The poll loop over any polls is the fold of the poll step, callbacks in order |
| PanelRuns.LatchIsTheFilter | pi/GpioPanel.cpp:190-214 | The latch always equals the filter's level, and the filter is that of the raw reads |
| PanelRuns.NothingElseWhileLatched | pi/GpioPanel.cpp:190-323 | After a poll that leaves the panel latched the e-stop input is held or has just been asserted, nothing else was done, and no chain is under way |
| PanelRuns.PressIsDebounced | pi/GpioPanel.cpp:148-153 | A press is the third down read in a row of a button last seen up |
| PanelRuns.StartsNeedPresses | pi/GpioPanel.cpp:239-324 | Starts of the loop, and one more while a start is pending, never outnumber the presses of RUN |
| PanelRuns.StartHasAPress | pi/GpioPanel.cpp:239-324 | Whenever the panel starts the loop, RUN was pressed then or before and the e-stop has not engaged from that press on |
| PanelRuns.ActionsFitTheSnapshot | pi/GpioPanel.cpp:239-364 | De-initialisation never with the loop running, initialisation never on a snapshot that is operational or busy, start only when operational, stopped and with no e-stop |
| PanelActions.ActionsExactly | pi/GpioPanel.cpp:190-366 | Each action of a poll as an equivalence: assert and release of the e-stop, stop, de-initialize, initialize and start |
| PanelActions.PendingExactly | pi/GpioPanel.cpp:239-324 | When a start is pending after a poll, as an equivalence |
| PanelActions.ColdPressRuns | pi/GpioPanel.cpp:290-324 | A cold press initializes, and however long that takes the poll that first shows the drives operational starts the loop |
| PanelActions.TrippedPressStartsTheChain | pi/GpioPanel.cpp:248-285 | A press with the e-stop tripped starts the re-initialize chain at the leg the drives are at |
| PanelActions.TrippedPressReinitializes | pi/GpioPanel.cpp:248-365 | With the loop running it stops, de-initializes, initializes and ends, as the snapshots follow within a minute a leg |
| PanelActions.ChainIsGivenUp | pi/GpioPanel.cpp:325-340 | The chain is given up when the e-stop latches and after a minute on one leg |
| PanelRuns.ReinitEnds | pi/GpioPanel.cpp:325-365 | The re-initialize chain is idle within 3 * 6001 polls without a press, whatever the snapshots say |
| PanelRuns.TwoStartsExactly | pi/GpioPanel.cpp:292-313 | A poll starts the loop at most twice, and twice if and only if a press lands with the auto-start pending on a snapshot that is operational, stopped and not busy, with no fault, e-stop, e-stop input or latch |
| PanelRuns.TwoStartsReached | pi/GpioPanel.cpp:292-313 | A run on which one poll does so |
| CarCache.InOrder | src/GearRatioLearner.h:75-85 | The order check as it runs over the gears |
| CarCache.InOrderMeansFalls | src/GearRatioLearner.h:75-85 | For positive ratios the check, which compares neighbours, decides whether all pairs fall |
| CarCache.FindMatch | src/CarCache.cpp:121-136 | The first car with at least two shared gears, all within tolerance |
| CarCache.MatchesExactly | src/CarCache.cpp:121-136 | A car matches a session if and only if they share two gears and agree within six hundredths of the car's ratio in every shared one |
| CarCache.UsableExactly | src/CarCache.cpp:115-120 | A session is merged if and only if it knows two gears and its ratios fall |
| CarCache.UpdateCar | src/CarCache.cpp:144-158 | The session's gears taken over, the remembered gears they contradict gone |
| CarCache.UpdateFalls | src/CarCache.cpp:144-158 | The updated car has every gear of the session as driven and falls with every gear |
| CarCache.DroppedGearsContradict | src/CarCache.cpp:147-157 | A gear is dropped only because keeping it would break the order |
| CarCache.CarCache.Merge | src/CarCache.cpp:115-163 | The list after a session: the updated car in front, the others in their order, at most 64 |
| CarCache.MergeKeepsOrder | src/CarCache.cpp:115-163 | Every remembered car still falls with every gear after a merge |
| CarCache.OthersKeepTheirOrder | src/CarCache.cpp:160-162 | Each other car keeps its contents and its place behind the front, and is dropped only off the end of a full list |
| CarCache.MergeIsIdempotent | src/CarCache.cpp:115-163 | Merging a session twice is merging it once |
| CarCache.CarCache.TakeSession | src/CarCache.cpp:90-96 | A session that taught nothing changes nothing; one that changed the cache is flagged unsaved |
| CarCache.CarCache.TakeFinished | src/CarCache.cpp:107-113 | Each step of the finished car's count is merged once |
| CarCache.CarCache.Flush | src/CarCache.cpp:98-105 | What is not flagged unsaved is on disk |
| CarCache.RetriesAfterForty | src/CarCache.cpp:98-105 | After a failed write the next forty unforced calls do nothing and the one after them tries again |
| CarCache.FlushExactly | src/CarCache.cpp:98-105 | When a flush writes, what stays unsaved and how long it then waits |
| SortedMap.ScanFindsThePrefix | src/CarTable.cpp:389-401 | Scanning from the lower bound of a prefix while keys begin with it finds exactly the keys that begin with it |
| CarTable.Normalise | src/CarTable.cpp:35-42 | Lower case, letters and digits only |
| CarTable.NormalisedCharacters | src/CarTable.cpp:35-42 | Character by character: digits and lower case letters stay, upper case ones become lower case, everything else goes |
| CarTable.NormalKeyIsIdempotent | src/CarTable.cpp:44-52 | For any alias map: a normalised key is its own if and only if it has no game part or the id its game resolves to resolves to itself |
| CarTable.ALaterGameMovesTheKey | src/CarTable.cpp:60-71 | A map for which it is not: a later game takes an earlier id for an alias |
| CarTable.RebuildNames | src/CarTable.cpp:95-108 | The name index is built row by row in key order |
| CarTable.IndexMeans | src/CarTable.cpp:91-108 | The index never shadows a key and gives every other display name to the first row in key order that has it |
| CarTable.IndexPointsAtRows | src/CarTable.cpp:95-108 | Whatever the index gives is the key of a row |
| CarTable.NameKeyIsOfTheGame | src/CarTable.cpp:95-108 | A name is indexed under the game of its row's key, or the empty game |
| CarTable.LookupMeans | src/CarTable.cpp:110-116 | A lookup finds the row with the key if there is one, else the first row with the name, else nothing |
| CarTable.CarTable.PutUser | src/CarTable.cpp:436-442 | The row is found under any spelling of its key, every other row as before, and the index is consistent |
| CarTable.CarTable.RemoveUser | src/CarTable.cpp:444-450 | The row is gone, every other row as before, and the index is consistent |
| CarTable.CarTable.CoversGame | src/CarTable.cpp:389-401 | One look at the lower bound decides whether some row of either layer belongs to the game |
| CarTable.CoversIsACar | src/CarTable.cpp:389-401 | A game is covered exactly when some row is keyed by it and a car |
| CarTable.CarTable.FindCut | src/CarTable.cpp:270-304 | Found exactly when the name is long enough and one key of both layers together fits it; the user's row before stock's |
| CarTable.FitsByKeyOrName | src/CarTable.cpp:281-293 | A row fits a cut name exactly when its key begins with it or it goes by a name that does |
| CarTable.CarTable.FindNear | src/CarTable.cpp:313-346 | The longest prefix of whole words, at least two and not all, that either layer finds; nothing when none does |
| CarTable.NearIsAPrefix | src/CarTable.cpp:306-312 | The words that found a near match are a proper prefix of the sim's whole normalised name |
| CarTable.BreaksAre | src/CarTable.cpp:313-330 | Words are broken at underscores and white space |
| Commissioning.CommissioningMode.Start | src/CommissioningMode.cpp:45-118 | Every segment derated, the ease-in time from the furthest start offset, everything else from rest |
| Commissioning.CommissioningMode.Step | src/CommissioningMode.cpp:155-257 | One cycle of the phase machine and the offsets it puts out |
| Commissioning.CommissioningMode.Abort | src/CommissioningMode.cpp:120-132 | An abort goes home from the outputs last put out |
| CommissioningRuns.DeratingFits | src/CommissioningMode.cpp:64-88 | A derated sine keeps A within 0.9 of the half stroke, A*w within 0.8 vmax and A*w^2 within 0.8 amax; nothing is cut that fits, and what is cut keeps its sign and ends on the cap |
| CommissioningPace.CutIsTight | src/CommissioningMode.cpp:64-88 | What is cut ends exactly on one of the three budgets |
| CommissioningRuns.OutputsStayWithinLimits | src/CommissioningMode.cpp:155-257 | On every run, aborted anywhere, each output stays within max(abs(start offset), 0.9 half stroke) and an axis that takes no part at zero |
| CommissioningRuns.PhaseMovesForward | src/CommissioningMode.cpp:155-257 | The phase and the segment only move forward, and the step that reaches Done puts out zeros |
| CommissioningRuns.LeftFalls | src/CommissioningMode.cpp:155-257 | Each step of a moving engine brings Done at least one step closer; an abort leaves at most the longest return |
| CommissioningRuns.DoneInTime | src/CommissioningMode.cpp:155-257 | However aborted, Done is reached within the steps of the plan and one longest return |
| CommissioningRuns.DoneAfterAbort | src/CommissioningMode.cpp:120-132 | An abort is over within three seconds' worth of steps |
| CommissioningRuns.DoneByThePlan | src/CommissioningMode.cpp:155-257 | Without an abort the plan alone bounds the run |
| CommissioningPace.StageLasts | src/CommissioningMode.cpp:155-257 | Undisturbed, the ease in, every segment and the way home last exactly the cycles their times take |
| CommissioningPace.StagesInOrder | src/CommissioningMode.cpp:155-257 | The stages follow each other: ease in, every segment in turn, way home, done |
| CommissioningPace.ReturnsAtItsPace | src/CommissioningMode.cpp:223-229 | On every run the way home is at the pace of the furthest axis: none is further from home than 20 times the return time unless that is 3 s, and some axis is exactly that far unless it is 0.3 or 3 s |
| CommissioningPace.AbortStartsWhereItIs | src/CommissioningMode.cpp:120-132 | An abort goes home from the outputs of the last cycle, at that pace |
| CommissioningPace.CenteringTimeFits | src/CommissioningMode.cpp:90-94 | The same of the ease in, at 25 a second between one and eight seconds |
| CommissioningPace.EasesHome | src/CommissioningMode.cpp:165-177 | Easing puts an axis where it started at weight one, home at weight zero, on its own side and nearer the less the weight |
| CommissioningPace.WaveReachesItsAmplitude | src/CommissioningMode.cpp:202-209 | A sine reaches its derated amplitude at the crest of a full envelope, its negative at the trough, and nothing at a node |
| CommissioningPace.StartKeepsThePlan | src/CommissioningMode.cpp:45-118 | A start changes nothing of the plan but its amplitudes, and takes 2 ms for a cycle that is not positive |
| CommissioningPace.EmptyPlanGoesHome | src/CommissioningMode.cpp:182-190 | A plan without segments goes home at once in the shortest time |
| CommissioningRuns.ReturnsFromTheCycleBefore | src/CommissioningMode.cpp:219-230 | A completed plan goes home from the outputs of the cycle before the last |
| CommissioningRuns.ReturnJumps | src/CommissioningMode.cpp:219-230 | On any run, the return starts elsewhere than the outputs are if and only if the last two cycles put out different values: for a hold exactly when it was no longer than one cycle and its amplitude is not what was put out before; for a sine, whose envelope has closed, exactly when the cycle before was not at zero |
| CommissioningRuns.CancelIsFinal | src/CommissioningMode.cpp:134-142 | From a cancel on, whatever follows, the engine is done, does not change and puts out zeros |
| Identification.AxisMonitor.RecordSample | src/CommissioningMode.cpp:263-356 | One sample of a sine segment: the rail, the window and the sums |
| Identification.RailIsExact | src/CommissioningMode.cpp:270-297 | A sample aborts exactly if it passes twice the rail or is at least the 25th in a row over it |
| Identification.WindowIsTheHold | src/CommissioningMode.cpp:327-330 | A sample counts exactly when it is a ramp from both ends of the segment, a ramp taking at most half of it |
| Identification.SumsAreTheChannels | src/CommissioningMode.cpp:332-356 | The sums of a segment are those of its three channels, each sample counted once |
| Identification.GoertzelIsTheBin | src/CommissioningMode.cpp:332-339 | After any samples, what the finish reads off the recurrence is the DFT bin: the sum of each sample times the rotation to the power of the samples after it |
| Identification.StaticTorqueIsRemoved | src/CommissioningMode.cpp:453-463 | Subtracting the mean times the constant's bin is projecting the torque with its mean removed |
| Identification.PhasorStaysOnTheCircle | src/CommissioningMode.cpp:352-355 | The rotating phasor never leaves the unit circle |
| Identification.VarianceIsNotNegative | src/CommissioningMode.cpp:453-457 | The expression under the square root of the torque ripple is never negative |

## Left out

- MutualExclusion: holds under Disciplined, which the callers do not keep; a failed initialization, simulation mode, and the stretch report (m_pumpBridged, PumpReport) are not steps of the model, because none of them decides who owns the bus; the Windows branch with its separate pump thread is not modelled.
- SpinIsBounded: counts steps of the dispatch thread, not microseconds; the length of a frame exchange or of a sleep is not modelled.
- OvershootBound: covers Bypass and Interpolate; Filter's candidate carries velocity of its own and depends on an exponential.
- PursuitBound: for brakeEps = 0, Bypass and Interpolate, and a target that moves every cycle by the same amount with the estimate already equal to its velocity; BrakesExactlyWhenNeeded and BrakesToTheCurve have no such conditions.
- BandBound: as OvershootBound, and its constants (5/2 and 9/8) are not claimed to be the least; a start inside the band that Covered leaves out is decided by EveryStartIsDecided.
- VelocityBounds: over reals, so it does not say what rounding of doubles adds.
- Contraction: in the closed loop the phase is a real and does not wrap, which LoopIsThePlant ties to the wrapping update while the error is within half a cycle; the trim is clamped but not rounded to counts, and PeriodIsTheTrim bounds the rounding by half a count.
- LocksExactly: for kp*dt <= 1; a proportional gain so large that one cycle overcorrects the error is not covered. At a drift equal to the clamp all that is shown is that some starts fail.
- DirectContraction: its sum of squares is for gains with 2*ki <= kp^2; the others have EnergyFalls, and LocksExactly has both.
- DelayedContraction: for gains that leave room for the latency (2*ki <= kp^2 and 8*kp^3*dt <= ki), as the defaults do from 100 Hz up.
- DelayedLocksExactly: for the same gains.
- NeverEnabledUnsynced: excepts a parking write to a drive asked to enable (the exact condition is ParkIsTheCondition); homing and seat moves, which write raw targets from MotionController, and a drive that skips states the standard does not let it skip, are not part of this model.
- RequestReadsBack: targets outside the range of a 32-bit count are not modelled; the conversion is undefined there.
- A6Drive.A6Drive.UpdateStatus: the process-image pointers are all bound or all null; the stall counter of the Unknown state, which is only logged, is dropped.
- AllClear: speaks of the faults the monitor has seen; a drive that faults in the same cycle and whose turn comes later is not among them yet.
- LockedByThe406thFaultStep: one drive at a time; other drives come in only through whether their faults are seen.
- DoRecoveryScan: locks, timeouts, log lines and the clearing of a lost slave's inputs are not modelled; the thin start-time margin is an input.
- PollOnce: the park, belt and device buttons, the LEDs and their self-test, and logging are left out; they are single branches on the snapshot.
- InOrderMeansFalls: for positive ratios, the only ones a session can be confident of or a file be loaded with.
- ReturnJumps: the sine's envelope is an input; it is zero at the end of a segment (src/WaveSynth.h:26-33).
- Flush: the file is its contents; reading and writing JSON, and the load that drops out-of-order cars, are left out.
- FindCut: rows are a key and a name; entries, JSON loading, the list, and find and findCar, which try the lookups in order, are left out.
- Step: the waves are inputs within their ranges; labels, reasons, results and their publication under try_lock are left out.
- RecordSample: sine segments; step-and-hold metrics and the computed amplitude and phase angles are left out, and the rail is an input.
- The initialization sequence of the master, SDO and mailbox traffic, NIC handling, process priorities and timers: foreign I/O.
- Following-error, dither and clock-walk diagnostics and the status publishing of the control loop: they decide nothing.
- Commissioning plan builders and song parsing; device force, grip, engine and driveline models; configuration files; the user interface: none of the protocols above depends on them.
