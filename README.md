# Aubo ros_control hardware interface, modelled in Dafny

This project models `AuboHardwareInterface`, the adapter between a ros_control
controller manager and the Aubo arm driver. The interface keeps six per-joint buffers
(position, velocity, effort, position command, velocity command, previous velocity
command), a force/torque sample, a per-cycle velocity limit, and two independent
running flags, one for the velocity trajectory controller and one for the position
trajectory controller. Its operations are:

- **read**: copies the driver's telemetry into the buffers.
- **write**: dispatches one command per cycle. In velocity mode the command is rate
  limited and sent to `setSpeed`. In position mode the command is sent unchanged to
  `servoj`.
- **canSwitch**: decides whether a start/stop request of controllers is admitted.
- **doSwitch**: commits the request, updating the flags and opening or closing the
  position servo.

Layout:

- `Controllers.dfy` (module `Controllers`): the controller kinds, the admission rule
  (`Refused`, `Admissible`), the resulting flags (`Switched`), the inner stop-list
  search (`Contains`) and the lemmas about switching. `Session` models how a controller
  manager uses the pair: it offers requests in order and commits each one that is
  admitted.
- `RateLimiter.dfy` (module `RateLimiter`): the per-joint clamp and the vector limit,
  with their lemmas.
- `HardwareInterface.dfy` (module `AuboHardware`): the class `AuboHardwareInterface`.
  - The joint vectors are `seq<real>` fields.
  - `robot_force_` and `robot_torque_` are `array<real>` of length 3.
  - Every driver call is appended to a ghost `trace` of `DriverCall` values.
  - `Valid()` is the object invariant: at least one joint, all six buffers of length
    `numJoints`, and two distinct three-element wrench arrays.
  - `StartPositionScenario`, `SwapScenario` and `ReadTwice` are client demonstrations
    with assertions and no contract of their own, so they have no row below. They show
    what a caller can prove from the contracts alone:
    - `StartPositionScenario`: an idle `Write` sends nothing; starting position is
      admitted, opens the servo once, and the next `Write` sends the position command.
    - `SwapScenario`: starting velocity alone while position runs is refused; the swap
      that also stops position is admitted and closes the servo once; a request of 1
      from rest is sent as 0.12.
    - `ReadTwice`: a second read with unchanged telemetry leaves the state the first
      read produced.
  - `Controllers.Session` is a specification function with no contract of its own; its
    property is the row for `SessionKeepsExclusive`.

Where the code's own messages and its behaviour disagree, the model follows the
behaviour:

- **Mutual exclusion.** The error messages of `canSwitch`
  (`aubo_hardware_interface.cpp` lines 184 and 213: a controller "can not be run
  simultaneously" with the other interface) show that the two modes are meant to
  exclude each other. The code, however, only checks the current flags (lines 163, 170,
  192, 199). So a start list holding both kinds is admitted while idle, and `doSwitch`
  then sets both flags (lines 251 and 256). `BothKindsAdmittedWhenIdle` exhibits this
  case, and exclusion is proved under the side condition that the start list does not
  hold both kinds (`SwitchKeepsExclusive`, `SessionKeepsExclusive`). The two flags are
  kept as two booleans, as in the header, so "both running" is representable.
- **The limit's sign.** The constructor presents the limit as an acceleration (the
  comment at line 48), which only makes sense when it is non-negative. Yet
  `setMaxVelChange` (lines 129-131) accepts any value. The band property is therefore
  conditional on the limit being non-negative.

## Model

| member | source | states |
|---|---|---|
| `AuboHardware.AuboHardwareInterface.constructor` | src/aubo_robot/aubo_new_driver/src/aubo_hardware_interface.cpp:43-51 | Construction with n ≥ 1 joints leaves the object valid with all six joint buffers of length n and zero, both wrench arrays zero, both flags false, the limit 0.12 and no driver call made. |
| `AuboHardware.AuboHardwareInterface.Init` | src/aubo_robot/aubo_new_driver/src/aubo_hardware_interface.cpp:64-110 | Sets the joint count to n, resizes every joint buffer to n, zeroes the previous velocity command and clears both flags. It leaves the limit, the wrench arrays and the trace alone. |
| `AuboHardware.Resized` | src/aubo_robot/aubo_new_driver/src/aubo_hardware_interface.cpp:67-72 | A resized vector has length n, keeps its old elements at the indices it still covers, and is zero at every new index. |
| `AuboHardware.AuboHardwareInterface.Read` | src/aubo_robot/aubo_new_driver/src/aubo_hardware_interface.cpp:112-127 | Position, velocity and effort become the first `numJoints` entries of the telemetry vectors. Force becomes tcp[0..3] and torque tcp[3..6]. No other field changes, and the new state depends only on the telemetry, so repeating the read is idempotent. |
| `AuboHardware.AuboHardwareInterface.SetMaxVelChange` | src/aubo_robot/aubo_new_driver/src/aubo_hardware_interface.cpp:129-131 | Any value is stored as the limit, and only the limit changes. |
| `AuboHardware.AuboHardwareInterface.Write` | src/aubo_robot/aubo_new_driver/src/aubo_hardware_interface.cpp:133-153 | Velocity running (which takes precedence): the previous command becomes the rate-limited request, and exactly one `SetSpeed` of its first six entries with acceleration limit·125 is appended. Otherwise, position running: exactly one `ServoJ` of the unmodified position command is appended. Otherwise: nothing is sent. Flags and command buffers never change. |
| `RateLimiter.Clamp` | src/aubo_robot/aubo_new_driver/src/aubo_hardware_interface.cpp:139-145 | For a non-negative limit d, the dispatched value lies within [prev − d, prev + d]. A request already inside that band is passed through exactly. |
| `RateLimiter.Limit` | src/aubo_robot/aubo_new_driver/src/aubo_hardware_interface.cpp:137-147 | The limited vector has the request's length. Every joint is within the band around its previous command, and every in-band joint request is kept. |
| `RateLimiter.ClampIsNearest` | src/aubo_robot/aubo_new_driver/src/aubo_hardware_interface.cpp:139-145 | The clamped value is at least as close to the request as any point of the band. |
| `RateLimiter.ClampIsMinMax` | src/aubo_robot/aubo_new_driver/src/aubo_hardware_interface.cpp:139-145 | For a non-negative limit the clamp equals max(prev − d, min(request, prev + d)). |
| `RateLimiter.ClampIdempotent` | src/aubo_robot/aubo_new_driver/src/aubo_hardware_interface.cpp:139-145 | Clamping a clamped value again changes nothing. |
| `RateLimiter.ClampMonotone` | src/aubo_robot/aubo_new_driver/src/aubo_hardware_interface.cpp:139-145 | A larger request never gives a smaller dispatched value. |
| `RateLimiter.LimitFromRest` | src/aubo_robot/aubo_new_driver/src/aubo_hardware_interface.cpp:137-147 | Six joints at rest with limit 0.12 and request [1,0,0,0,0,0] give [0.12,0,0,0,0,0]. |
| `AuboHardware.AuboHardwareInterface.CanSwitch` | src/aubo_robot/aubo_new_driver/src/aubo_hardware_interface.cpp:155-224 | The early-return loop returns exactly `Admissible` of the current flags. It has no frame, so it mutates nothing, matching the `const` declaration at src/aubo_robot/aubo_new_driver/include/aubo_new_driver/aubo_hardware_interface.h lines 80-82. |
| `Controllers.Contains` | src/aubo_robot/aubo_new_driver/src/aubo_hardware_interface.cpp:172-181 | The stop-list search with break returns true exactly when a descriptor of the sought kind is in the list. |
| `Controllers.AdmissibleExactly` | src/aubo_robot/aubo_new_driver/src/aubo_hardware_interface.cpp:158-223 | A request is admitted iff two conditions hold for each kind K in the start list: K is not running, and the other kind, if running, is in the stop list. Both directions are proved. |
| `Controllers.RestartRejected` | src/aubo_robot/aubo_new_driver/src/aubo_hardware_interface.cpp:161-198 | Starting a kind that is already running is refused whatever the stop list holds, including a stop of that same kind. |
| `Controllers.VelocityWhilePositionRejected` | src/aubo_robot/aubo_new_driver/src/aubo_hardware_interface.cpp:170-188 | start={Velocity} while position runs and position is not stopped is refused. |
| `Controllers.StoppingAlwaysAdmitted` | src/aubo_robot/aubo_new_driver/src/aubo_hardware_interface.cpp:220-223 | A start list naming neither kind, the empty one included, is always admitted, and its switch keeps exclusion. |
| `Controllers.OtherDescriptorsIgnored` | src/aubo_robot/aubo_new_driver/src/aubo_hardware_interface.cpp:158-260 | Dropping descriptors of other types from either list changes neither admission, nor the resulting flags, nor the number of servo calls. |
| `AuboHardware.AuboHardwareInterface.DoSwitch` | src/aubo_robot/aubo_new_driver/src/aubo_hardware_interface.cpp:226-262 | Processing stop then start gives these final flags: a kind's flag is true if it is in the start list, else false if it is in the stop list, else unchanged. The trace gains one `CloseServo` per position stop, then one `OpenServo` per position start, and nothing for velocity. |
| `AuboHardware.AuboHardwareInterface.ProcessStopList` | src/aubo_robot/aubo_new_driver/src/aubo_hardware_interface.cpp:229-244 | The stop loop clears the flag of every kind in the stop list and leaves the other flag alone; the trace gains one `CloseServo` per position descriptor and nothing for velocity. |
| `AuboHardware.AuboHardwareInterface.ProcessStartList` | src/aubo_robot/aubo_new_driver/src/aubo_hardware_interface.cpp:245-260 | The start loop sets the flag of every kind in the start list and leaves the other flag alone; the trace gains one `OpenServo` per position descriptor and nothing for velocity. |
| `Controllers.SwitchKeepsExclusive` | src/aubo_robot/aubo_new_driver/src/aubo_hardware_interface.cpp:163-260 | Suppose not both flags are set, the request is admitted, and the start list does not hold both kinds. Then after the switch not both flags are set. |
| `Controllers.BothKindsAdmittedWhenIdle` | src/aubo_robot/aubo_new_driver/src/aubo_hardware_interface.cpp:249-259 | While idle, start={Velocity, Position} is admitted and the switch sets both flags, so the side condition above is needed. |
| `Controllers.AtomicSwap` | src/aubo_robot/aubo_new_driver/src/aubo_hardware_interface.cpp:170-260 | Suppose position runs, the start list holds velocity but not position, and the stop list holds position. Then the request is admitted and only velocity runs afterwards, and symmetrically for the opposite swap. |
| `Controllers.SessionKeepsExclusive` | src/aubo_robot/aubo_new_driver/src/aubo_hardware_interface.cpp:155-262 | Start from an exclusive state. Commit only admitted requests, none of which starts both kinds, in any sequence. Then the two flags are never set together. |

## Left out

- Loading joint names from the ROS parameter server, and the process exit when none
  are found. The constructor and `Init` take the joint count n and require n ≥ 1. The
  `joint_names_` field is not modelled.
- Registration of joint-state, position, velocity and force/torque handles and
  interfaces. Controllers write the command buffers through these handles (pointer
  aliasing). In the model, a client assigns the command fields directly.
- All logging, and `do_output.cpp`, which only wraps printing and shutdown.
- The driver itself.
  - The four telemetry getters become the parameters of `Read`.
  - `setSpeed`, `servoj`, `openServo` and `closeServo` are recorded as entries of the
    ghost trace. Their effects inside the driver are not modelled.
  - The empty vector passed to `closeServo` is dropped.
- Floating point. The doubles are modelled as `real`, so the band bounds hold exactly
  over the reals. They need not hold under IEEE rounding of `prev + d`.
- Controller type names. The comparison of the two type strings is abstracted to the
  `ControllerKind` values `Velocity`, `Position` and `Other`. Descriptor names are not
  modelled.
- The simulation constants `POSITION_STEP_FACTOR` and `VELOCITY_STEP_FACTOR`. They are
  unused.
- `AuboHardware.AuboHardwareInterface.Init`: the zeroing loop runs over a local copy of
  the resized previous-command vector, which is then stored in the field at once. The
  final state is the same as the source's element-by-element update.
- `AuboHardware.AuboHardwareInterface.Write`: requires at least six joints in velocity
  mode, since the source reads `cmd[0]` to `cmd[5]` unconditionally.
- `AuboHardware.AuboHardwareInterface.Read`: requires telemetry vectors of at least
  `numJoints` entries and a wrench vector of at least six, since the source indexes them
  without checks.
- `RateLimiter.Clamp`: its contract pins the result only inside the band, plus the band
  bound for a non-negative limit. The exact value outside the band is given by
  `ClampIsMinMax`. Nothing is stated for a negative limit.
- Calling `DoSwitch` on a refused request is modelled as the source does it, with no
  re-check. Only the lemmas assume admission.
