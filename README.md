# Underbrush inverse-dynamics leg controller, modelled in Dafny

This project models the per-tick command synthesis of the quad-sdk leg controller
`UnderbrushInverseDynamicsController` (`leg_controller/src/underbrush_inverse_dynamics.cpp`)
and its gain store. The model proves properties of it.

Each control tick does the following:

1. It flags a time outside the local plan's span.
2. It searches the plan for the first bracket `t_i <= now < t_{i+1}`. It then interpolates
   the reference state, using the fraction `(now - t_i) / (t_{i+1} - t_i)`, and copies
   the GRF set of sample `i`.
3. It reshapes the reference of every swing leg. Each swing leg is aimed at its next
   future contact sample, with zero velocity and acceleration.
4. It runs inverse kinematics. Then it lowers every knee reference by
   `0.8 |hip error| + 0.8 |abduction error|`.
5. It reads each leg's contact mode, runs inverse dynamics, and assembles three motor
   commands per leg. Stance legs get the stance gains and the dynamics torque. Swing legs
   get the swing gains and no feed-forward torque.

Files:

- `quad_msgs.dfy` (module `QuadMsgs`): the message types as values.
- `underbrush_spec.dfy` (module `UnderbrushSpec`): what a tick computes, as functions
  whose contracts state the search outcomes, the reshaping rule and its frame, the
  knee-correction bounds and the command layout.
- `underbrush_inverse_dynamics.dfy` (module `UnderbrushInverseDynamics`): the controller
  in the source's own form. The class `UnderbrushInverseDynamicsController` holds the four
  gain vectors that `SetGains` replaces. Its tick method runs the bracket search and the
  next-contact scan as loops with early exit. It updates the foot reference and the knee
  entries in place, and fills the resized command array leg by leg. Each of these methods
  is proved to compute the corresponding function of `UnderbrushSpec`.
- `underbrush_properties.dfy` (module `UnderbrushProperties`): lemmas that relate several
  steps or several inputs.

How the model represents the source:

- The messages passed by reference are values. The tick method returns the new command
  array and GRF message.
- Every `std::vector::at` that can fail is modelled as the outcome `OutOfRange`. This
  is the `std::out_of_range` exception, which ends the tick. These reads are:
  - the reference's feet, during reshaping;
  - a future plan sample's feet, during the scan;
  - the gain vectors, during assembly.
- Accesses whose failure is undefined behaviour are preconditions instead. These are
  `front()`/`back()` on the plan, `grfs[i]`, and copying the measured joints into
  12-vectors.
- The numeric services are function-typed fields of a `Numerics` value that the tick
  receives as a parameter. They are state interpolation, inverse kinematics and inverse
  dynamics.
- Time (`ros::Time::now()`) is the parameter `now`. The `ROS_ERROR` report is the
  returned flag `timeError`.

## What happens outside the plan

One might expect a time outside the plan only to be reported, and the tick then to go on
with the nearest boundary sample. The code does something else. When no bracket matches, `ref_state_msg` stays default-constructed and has no feet. So
`ref_state_msg.feet.feet.at(0)` at line 74 throws. The model follows the code:

- `NoBracketAbortsTick` proves that a tick without a bracket ends in the exception,
  with the GRF message untouched.
- `OutsideSpanAbortsTick` proves that on a sorted plan this happens for every time the
  error report flags. It also happens for `now == t_last`, which the report does not flag.
- `BracketWithinSpan` and `SortedPlanBracketIff` show where a bracket exists.

## Model

| member | source | states |
|---|---|---|
| `QuadMsgs.DefaultRobotState` | leg_controller/src/underbrush_inverse_dynamics.cpp:37 | a default-constructed reference state has no feet and no joints |
| `UnderbrushSpec.FirstBracketFrom` | leg_controller/src/underbrush_inverse_dynamics.cpp:49-53 | the search returns a bracket `t_i <= now < t_{i+1}` with `i <= size-2` and no earlier bracket; "none" means no index from the start on brackets `now` |
| `UnderbrushSpec.InterpFraction` | leg_controller/src/underbrush_inverse_dynamics.cpp:54-56 | the fraction reconstructs `now` (`t0 + f (t1 - t0) == now`) and lies in `[0, 1)` inside a bracket |
| `UnderbrushInverseDynamics.FindBracket` | leg_controller/src/underbrush_inverse_dynamics.cpp:48-69 | the loop with `break` finds the first bracket, and reports none exactly when no index brackets `now` |
| `UnderbrushSpec.ScanStopsAtFirst` | leg_controller/src/underbrush_inverse_dynamics.cpp:75-90 | the next-contact scan stops at the first future contact sample or the first sample whose foot read throws, and finds nothing when neither exists |
| `UnderbrushSpec.NextContactFrom` | leg_controller/src/underbrush_inverse_dynamics.cpp:75-77 | the scan result is a future sample `j <= size-2` with the leg in contact (or whose foot read throws), and every sample before it is passed over; "not found" means every sample is passed over |
| `UnderbrushInverseDynamics.ScanForLanding` | leg_controller/src/underbrush_inverse_dynamics.cpp:75-90 | the early-exit scan loop computes that result |
| `UnderbrushSpec.ReshapeFoot` | leg_controller/src/underbrush_inverse_dynamics.cpp:74-89 | a stance foot is unchanged; a swing foot with no future contact is unchanged; a swing foot takes the position of its first future contact sample, with zero velocity and acceleration; the step throws exactly when the scan reaches a sample without that foot first |
| `UnderbrushSpec.ReshapeLegsFrom` | leg_controller/src/underbrush_inverse_dynamics.cpp:72-92 | reshaping keeps the foot count and every contact flag, leaves feet beyond the fourth untouched, reshapes each of the 4 legs by the per-foot rule, and throws exactly when the reference has fewer than 4 feet or some leg's step throws |
| `UnderbrushInverseDynamics.ReshapeReference` | leg_controller/src/underbrush_inverse_dynamics.cpp:72-92 | the in-place reshaping loop over 4 legs computes that result |
| `UnderbrushSpec.KneeOffset` | leg_controller/src/underbrush_inverse_dynamics.cpp:99-101 | the knee offset is never positive, and it is zero exactly when hip and abduction track their references |
| `UnderbrushSpec.CorrectKnees` | leg_controller/src/underbrush_inverse_dynamics.cpp:94-102 | for all 4 legs, whatever their contact, abduction and hip references are unchanged; no knee reference increases; a knee is unchanged exactly when its leg tracks in hip and abduction |
| `UnderbrushInverseDynamics.ApplyKneeCorrection` | leg_controller/src/underbrush_inverse_dynamics.cpp:94-102 | the in-place `+=` loop over the knees computes the corrected reference |
| `UnderbrushSpec.ContactMode` | leg_controller/src/underbrush_inverse_dynamics.cpp:115-119 | one contact mode per leg, equal to that foot's reference contact flag |
| `UnderbrushInverseDynamics.LoadContactMode` | leg_controller/src/underbrush_inverse_dynamics.cpp:115-119 | the loop builds that contact mode |
| `UnderbrushSpec.AssembleCommands` | leg_controller/src/underbrush_inverse_dynamics.cpp:125-147 | assembly succeeds exactly when every leg's selected gain vectors have 3 entries. It then yields 4 leg commands of 3 motor commands each. Motor `j` of leg `i` takes position and velocity from joint `3i+j`. Stance legs get `stanceKp[j]`, `stanceKd[j]` and torque `tau[3i+j]`; swing legs get `swingKp[j]`, `swingKd[j]` and torque 0 |
| `UnderbrushInverseDynamics.UnderbrushInverseDynamicsController.AssembleLegCommands` | leg_controller/src/underbrush_inverse_dynamics.cpp:125-147 | the nested loops filling the resized array compute that assembly from the stored gains, throwing at the first missing gain entry |
| `UnderbrushInverseDynamics.UnderbrushInverseDynamicsController.constructor` | leg_controller/src/underbrush_inverse_dynamics.cpp:3-5 | a new controller holds four empty gain vectors |
| `UnderbrushInverseDynamics.UnderbrushInverseDynamicsController.SetGains` | leg_controller/src/underbrush_inverse_dynamics.cpp:7-14 | the stored gains are exactly the four vectors given |
| `UnderbrushInverseDynamics.UnderbrushInverseDynamicsController.ComputeLegCommandArrayFromPlan` | leg_controller/src/underbrush_inverse_dynamics.cpp:16-148 | the error flag is raised exactly when `now` is before the first or after the last stamp; the outputs are those of the tick, using the gains last stored |
| `UnderbrushProperties.BracketBetween` | leg_controller/src/underbrush_inverse_dynamics.cpp:49-53 | between two samples whose stamps straddle `now` lies a bracket |
| `UnderbrushProperties.BracketWithinSpan` | leg_controller/src/underbrush_inverse_dynamics.cpp:43-53 | any plan, sorted or not, has a bracket for `t_first <= now < t_last` |
| `UnderbrushProperties.SortedBracketUnique` | leg_controller/src/underbrush_inverse_dynamics.cpp:49-53 | in a sorted plan the bracket is unique, so the search returns it |
| `UnderbrushProperties.SortedPlanBracketIff` | leg_controller/src/underbrush_inverse_dynamics.cpp:43-53 | in a sorted plan a bracket exists exactly when `t_first <= now < t_last` |
| `UnderbrushProperties.GrfConstantOverBracket` | leg_controller/src/underbrush_inverse_dynamics.cpp:61-65 | in a sorted plan, every time in `[t_i, t_{i+1})` gets GRF set `grfs[i]`, not interpolated |
| `UnderbrushProperties.NoBracketAbortsTick` | leg_controller/src/underbrush_inverse_dynamics.cpp:37-74 | without a bracket the tick throws and leaves the GRF message unchanged |
| `UnderbrushProperties.OutsideSpanAbortsTick` | leg_controller/src/underbrush_inverse_dynamics.cpp:43-74 | on a sorted plan, a flagged time or `now == t_last` ends the tick in the exception |
| `UnderbrushProperties.EmptyGainsAbortAssembly` | leg_controller/src/underbrush_inverse_dynamics.cpp:138-143 | with no gains stored, assembly throws |
| `UnderbrushProperties.WellFormedTickCompletes` | leg_controller/src/underbrush_inverse_dynamics.cpp:16-148 | with a bracket, four feet in every sample and in the interpolated reference, and three entries per gain vector, the tick completes |
| `UnderbrushProperties.CompletedTickGrf` | leg_controller/src/underbrush_inverse_dynamics.cpp:49-67 | a completed tick had a bracket, and it emits the GRF set of that bracket's earlier sample |
| `UnderbrushProperties.CompletedTickCommands` | leg_controller/src/underbrush_inverse_dynamics.cpp:72-147 | a completed tick emits 4 legs of 3 motor commands. Motor `j` of leg `i` takes velocity from joint `3i+j` of the inverse kinematics of the reshaped reference. Its abduction and hip positions equal that reference. Its knee position is that reference plus the knee offset `-0.8 |hip error| - 0.8 |abduction error|`. A leg whose interpolated contact flag is set gets stance gains and the inverse-dynamics torque `tau[3i+j]`. Any other leg gets swing gains and zero torque |
| `UnderbrushProperties.CommandsFollowReference` | leg_controller/src/underbrush_inverse_dynamics.cpp:93-147 | once the reshaped feet are fixed, every assembled motor command has those same setpoints, gains and torques. The torques come from inverse dynamics of the measured state, the reshaped feet, the GRF set and the contact modes |
| `UnderbrushProperties.AssembledMotorFollows` | leg_controller/src/underbrush_inverse_dynamics.cpp:94-147 | motor `j` of leg `i` of an array assembled from the knee-corrected reference has that reference's velocity for joint `3i+j`. Abduction and hip keep the inverse-kinematics position. The knee gets that position plus its knee offset, which is never positive. The foot's contact flag selects the gains and whether the torque is `tau[3i+j]` or zero |
| `UnderbrushSpec.Tick` | leg_controller/src/underbrush_inverse_dynamics.cpp:16-148 | the GRF message after any tick is the one the bracket search left. The tick completes exactly when the swing reshaping reads no missing foot and the selected gain vectors cover every leg's contact mode |
| `UnderbrushSpec.CommandsFor` | leg_controller/src/underbrush_inverse_dynamics.cpp:93-147 | after the reshaping, the command assembly succeeds exactly when the gains cover the contact modes of the reshaped feet, and it then yields 4 leg commands |
| `UnderbrushSpec.FeedForwardGrf` | leg_controller/src/underbrush_inverse_dynamics.cpp:48-67 | with a bracket the GRF message becomes the bracket's earlier sample set. Without one the caller's message is left as it was |
| `UnderbrushSpec.InterpolatedReference` | leg_controller/src/underbrush_inverse_dynamics.cpp:36-67 | without a bracket the reference stays default-constructed, with no feet and no joints. With one it is the interpolation of the two bracket samples at a fraction in `[0, 1)` that reconstructs `now` |
| `UnderbrushSpec.TimeOutOfRange` | leg_controller/src/underbrush_inverse_dynamics.cpp:43-46 | the error report fires when `now` precedes the first sample's stamp or follows the last one's; `SilentReportIff` relates it to the bracket search |
| `UnderbrushProperties.SilentReportIff` | leg_controller/src/underbrush_inverse_dynamics.cpp:43-53 | on a sorted plan the error report stays silent exactly when the search finds a bracket or `now` equals the last stamp |
| `UnderbrushProperties.ReshapeFootIdempotent` | leg_controller/src/underbrush_inverse_dynamics.cpp:74-89 | reshaping a reshaped foot changes nothing |
| `UnderbrushProperties.ReshapeIdempotent` | leg_controller/src/underbrush_inverse_dynamics.cpp:72-92 | reshaping the reshaped reference gives the same reference |
| `UnderbrushProperties.LastSampleNeverExamined` | leg_controller/src/underbrush_inverse_dynamics.cpp:75 | replacing the plan's last sample does not change the next-contact scan |

## Left out

- ROS plumbing is not modelled: message headers, `ConstPtr` handling, `ros::Time::now()` (a parameter) and `ROS_ERROR` (a returned flag).
- `quad_utils::interpRobotState`, `ikRobotState` and `QuadKD::computeInverseDynamics` are uninterpreted function parameters. So are the Eigen conversions folded into them (`vectorToEigen`, `bodyStateMsgToEigen`, `multiFootStateMsgToEigen`, `grfArrayMsgToEigen`).
- Inverse kinematics is assumed to rewrite only the joints, producing 12 positions and 12 velocities; inverse dynamics is assumed to produce 12 torques.
- The body state is carried in its 12-scalar converted form.
- Interpolation of the continuous fields and of the contact flags belongs to `interpRobotState`, which is not part of this model. So the model states neither that interpolated fields lie between the two bracket samples nor that contact flags come from the earlier sample.
- Floating point is not modelled: times, fractions, the knee correction and all setpoints are reals without rounding.
- `body_force_msg` is accepted and never used.
- `ref_body_state` (line 110) is computed and never used.
- The leg count is fixed at 4. This is both `num_feet_` and the hard-coded `4` of the reshaping and knee loops; other leg counts are not modelled.
- The exception is modelled as "the tick ended". The fields of the command array already written when it is thrown are not modelled.
- The model does not promise that an out-of-range time leaves the tick running, because the code does not do so. `OutsideSpanAbortsTick` proves that such a time ends the tick in the exception.
- `search/all_12.js` is a generated documentation search index without logic.
