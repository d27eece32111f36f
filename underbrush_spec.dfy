/** What one control tick of the underbrush inverse-dynamics leg controller computes,
    stated as functions over the message values: the bracket search over the local
    plan, the swing-leg reshaping, the knee correction, the contact-mode gain schedule
    and the command layout. The imperative controller in UnderbrushInverseDynamics is
    proved to compute exactly these. */
module UnderbrushSpec {
  import opened QuadMsgs

  /** num_feet_, and the leg count hard-coded in the reshaping and knee loops. */
  const NumFeet: nat := 4
  /** Motors per leg: abduction, hip, knee. */
  const JointsPerLeg: nat := 3
  /** Weight of the hip and abduction tracking errors in the knee correction. */
  const KneeGain: real := 0.8

  datatype Option<T> = None | Some(value: T)

  /** A step that reads vector elements with at(): its value, or the
      std::out_of_range exception that ends the tick. */
  datatype Result<T> = Ok(value: T) | OutOfRange

  /** Joint-space reference produced by inverse kinematics. */
  datatype JointReference = JointReference(position: JointVector, velocity: JointVector)

  /** The numeric services the controller calls but that are not modelled here:
      state interpolation, inverse kinematics of a body and foot reference
      (which rewrites only the joints), and inverse dynamics of the measured state,
      the reference feet, the feed-forward GRFs and the contact mode. */
  datatype Numerics = Numerics(
    interp: (RobotState, RobotState, real) -> RobotState,
    ik: (Body, seq<FootState>) -> JointReference,
    inverseDynamics: (seq<real>, seq<real>, seq<FootState>, GrfArray, seq<bool>) -> JointVector)

  /** Index of joint `joint` (0 abduction, 1 hip, 2 knee) of leg `leg` in a joint vector. */
  function JointIndex(leg: nat, joint: nat): nat
  {
    JointsPerLeg * leg + joint
  }

  // ---------------------------------------------------------------------------
  // Bracket search and interpolation fraction

  /** Samples i and i+1 bracket `now`: t_i <= now < t_{i+1}. */
  predicate IsBracket(states: seq<RobotState>, now: real, i: nat)
  {
    i + 1 < |states| && states[i].stamp <= now < states[i + 1].stamp
  }

  /** The first bracket at or after index k, scanning i = k .. size-2. */
  function FirstBracketFrom(states: seq<RobotState>, now: real, k: nat): (r: Option<nat>)
    decreases |states| - k
    ensures r.Some? ==> k <= r.value && IsBracket(states, now, r.value)
    ensures r.Some? ==> forall m: nat :: k <= m < r.value ==> !IsBracket(states, now, m)
    ensures r.None? ==> forall m: nat :: k <= m ==> !IsBracket(states, now, m)
  {
    if k + 1 >= |states| then None
    else if IsBracket(states, now, k) then Some(k)
    else FirstBracketFrom(states, now, k + 1)
  }

  function FirstBracket(states: seq<RobotState>, now: real): Option<nat>
  {
    FirstBracketFrom(states, now, 0)
  }

  /** The fraction of the way `now` lies from t0 to t1. */
  function InterpFraction(t0: real, t1: real, now: real): (f: real)
    requires t0 < t1
    ensures t0 + f * (t1 - t0) == now
    ensures t0 <= now < t1 ==> 0.0 <= f < 1.0
  {
    var f := (now - t0) / (t1 - t0);
    assert f * (t1 - t0) == now - t0;
    assert f < 0.0 ==> f * (t1 - t0) < 0.0;
    assert 1.0 <= f ==> t1 - t0 <= f * (t1 - t0);
    f
  }

  /** The error report: `now` lies before the first or after the last plan sample. */
  predicate TimeOutOfRange(plan: RobotPlan, now: real)
    requires 0 < |plan.states|
  {
    now < plan.states[0].stamp || now > plan.states[|plan.states| - 1].stamp
  }

  /** What the source's callers must supply: a non-empty plan with a GRF set for
      every sample that can start a bracket, and a measured state with 12 joints. */
  predicate PlanReadable(plan: RobotPlan)
  {
    0 < |plan.states| && |plan.states| <= |plan.grfs| + 1
  }

  predicate StateReadable(robot: RobotState)
  {
    |robot.joints.position| == 12 && |robot.joints.velocity| == 12
  }

  /** The reference state after the bracket search: interpolated between the
      bracket samples, or default-constructed (no feet, no joints) when no bracket. */
  function InterpolatedReference(plan: RobotPlan, now: real, numerics: Numerics): (r: RobotState)
    ensures FirstBracket(plan.states, now).None? ==> r.feet == [] && r.joints.position == []
    ensures FirstBracket(plan.states, now).Some? ==>
              var i := FirstBracket(plan.states, now).value;
              IsBracket(plan.states, now, i) &&
              var f := InterpFraction(plan.states[i].stamp, plan.states[i + 1].stamp, now);
              0.0 <= f < 1.0 && plan.states[i].stamp + f * (plan.states[i + 1].stamp - plan.states[i].stamp) == now &&
              r == numerics.interp(plan.states[i], plan.states[i + 1], f)
  {
    match FirstBracket(plan.states, now)
    case None => DefaultRobotState()
    case Some(i) =>
      numerics.interp(plan.states[i], plan.states[i + 1],
                      InterpFraction(plan.states[i].stamp, plan.states[i + 1].stamp, now))
  }

  /** The GRF message after the bracket search: the earlier sample's set, or the
      caller's message untouched when no bracket. */
  function FeedForwardGrf(plan: RobotPlan, now: real, grfIn: GrfArray): (r: GrfArray)
    requires PlanReadable(plan)
    ensures FirstBracket(plan.states, now).None? ==> r == grfIn
    ensures FirstBracket(plan.states, now).Some? ==>
              IsBracket(plan.states, now, FirstBracket(plan.states, now).value) &&
              r == plan.grfs[FirstBracket(plan.states, now).value]
  {
    match FirstBracket(plan.states, now)
    case None => grfIn
    case Some(i) => plan.grfs[i]
  }

  // ---------------------------------------------------------------------------
  // Swing-leg reshaping

  /** Sample j is one the next-contact scan looks at (j <= size-2) and lies in the future. */
  predicate Examined(states: seq<RobotState>, now: real, j: nat)
  {
    j + 1 < |states| && now < states[j].stamp
  }

  /** Sample j is examined and has leg `leg` in contact. */
  predicate LandsAt(states: seq<RobotState>, now: real, leg: nat, j: nat)
  {
    Examined(states, now, j) && leg < |states[j].feet| && states[j].feet[leg].contact
  }

  /** Sample j is examined and has no foot `leg`, so reading it throws. */
  predicate FaultsAt(states: seq<RobotState>, now: real, leg: nat, j: nat)
  {
    Examined(states, now, j) && leg >= |states[j].feet|
  }

  /** The scan passes sample j without stopping. */
  predicate PassesOver(states: seq<RobotState>, now: real, leg: nat, j: nat)
  {
    !LandsAt(states, now, leg, j) && !FaultsAt(states, now, leg, j)
  }

  ghost predicate FirstLanding(states: seq<RobotState>, now: real, leg: nat, j: nat)
  {
    LandsAt(states, now, leg, j) && forall m: nat :: m < j ==> PassesOver(states, now, leg, m)
  }

  ghost predicate FirstFault(states: seq<RobotState>, now: real, leg: nat, j: nat)
  {
    FaultsAt(states, now, leg, j) && forall m: nat :: m < j ==> PassesOver(states, now, leg, m)
  }

  ghost predicate NoLanding(states: seq<RobotState>, now: real, leg: nat)
  {
    forall m: nat :: PassesOver(states, now, leg, m)
  }

  datatype ContactSearch = FoundAt(index: nat) | NotFound | ThrowsAt(index: nat)

  /** The scan from the first sample stops at the first landing or the first
      fault, whichever comes first, and runs off the end when there is neither. */
  lemma ScanStopsAtFirst(states: seq<RobotState>, now: real, leg: nat)
    ensures forall j: nat :: FirstLanding(states, now, leg, j) ==> NextContactFrom(states, now, leg, 0) == FoundAt(j)
    ensures forall j: nat :: FirstFault(states, now, leg, j) ==> NextContactFrom(states, now, leg, 0) == ThrowsAt(j)
    ensures NoLanding(states, now, leg) ==> NextContactFrom(states, now, leg, 0) == NotFound
  {
    var r := NextContactFrom(states, now, leg, 0);
    forall j: nat | FirstLanding(states, now, leg, j) || FirstFault(states, now, leg, j)
      ensures r == if LandsAt(states, now, leg, j) then FoundAt(j) else ThrowsAt(j)
    {
      assert !PassesOver(states, now, leg, j);
      if !r.NotFound? {
        assert !PassesOver(states, now, leg, r.index);
      }
    }
    if !r.NotFound? {
      assert !PassesOver(states, now, leg, r.index);
    }
  }

  /** The next-contact scan for `leg` from sample j on. */
  function NextContactFrom(states: seq<RobotState>, now: real, leg: nat, j: nat): (r: ContactSearch)
    decreases |states| - j
    ensures r.FoundAt? ==> j <= r.index && LandsAt(states, now, leg, r.index)
    ensures r.ThrowsAt? ==> j <= r.index && FaultsAt(states, now, leg, r.index)
    ensures !r.NotFound? ==> forall m: nat :: j <= m < r.index ==> PassesOver(states, now, leg, m)
    ensures r.NotFound? ==> forall m: nat :: j <= m ==> PassesOver(states, now, leg, m)
  {
    if j + 1 >= |states| then NotFound
    else if FaultsAt(states, now, leg, j) then ThrowsAt(j)
    else if LandsAt(states, now, leg, j) then FoundAt(j)
    else NextContactFrom(states, now, leg, j + 1)
  }

  /** A foot aimed at a landing point: that position, no velocity, no acceleration. */
  function AimedAt(foot: FootState, target: Vec3): FootState
  {
    foot.(position := target, velocity := Zero3, acceleration := Zero3)
  }

  /** Reshaping of one foot of the reference. */
  function ReshapeFoot(states: seq<RobotState>, now: real, leg: nat, foot: FootState): (r: Result<FootState>)
    ensures foot.contact ==> r == Ok(foot)
    ensures !foot.contact && NoLanding(states, now, leg) ==> r == Ok(foot)
    ensures forall j: nat :: !foot.contact && FirstLanding(states, now, leg, j) ==>
              r == Ok(AimedAt(foot, states[j].feet[leg].position))
    ensures r.OutOfRange? <==> !foot.contact && exists j: nat :: FirstFault(states, now, leg, j)
  {
    ScanStopsAtFirst(states, now, leg);
    if foot.contact then Ok(foot)
    else match NextContactFrom(states, now, leg, 0)
      case FoundAt(j) => Ok(AimedAt(foot, states[j].feet[leg].position))
      case NotFound => Ok(foot)
      case ThrowsAt(_) => OutOfRange
  }

  /** Reshaping of legs leg .. NumFeet-1, each read with at(). */
  function ReshapeLegsFrom(feet: seq<FootState>, states: seq<RobotState>, now: real, leg: nat): (r: Result<seq<FootState>>)
    requires leg <= NumFeet && leg <= |feet|
    decreases NumFeet - leg
    ensures r.Ok? ==> |r.value| == |feet| && NumFeet <= |feet|
    ensures r.Ok? ==> forall k :: 0 <= k < |feet| ==> r.value[k].contact == feet[k].contact
    ensures r.Ok? ==> forall k :: 0 <= k < |feet| && (k < leg || NumFeet <= k) ==> r.value[k] == feet[k]
    ensures r.Ok? ==> forall k :: leg <= k < NumFeet ==> ReshapeFoot(states, now, k, feet[k]) == Ok(r.value[k])
    ensures r.OutOfRange? <==>
              |feet| < NumFeet || exists k :: leg <= k < NumFeet && ReshapeFoot(states, now, k, feet[k]).OutOfRange?
  {
    if leg == NumFeet then Ok(feet)
    else if |feet| == leg then OutOfRange
    else match ReshapeFoot(states, now, leg, feet[leg])
      case OutOfRange => OutOfRange
      case Ok(f) => ReshapeLegsFrom(feet[leg := f], states, now, leg + 1)
  }

  function ReshapeSwingLegs(feet: seq<FootState>, states: seq<RobotState>, now: real): Result<seq<FootState>>
  {
    ReshapeLegsFrom(feet, states, now, 0)
  }

  // ---------------------------------------------------------------------------
  // Knee correction

  function Abs(x: real): (r: real)
    ensures 0.0 <= r && (r == x || r == -x)
  {
    if x < 0.0 then -x else x
  }

  /** The knee offset of one leg from its hip and abduction tracking errors. */
  function KneeOffset(measured: seq<real>, reference: seq<real>, leg: nat): (r: real)
    requires JointIndex(leg, 1) < |measured| && JointIndex(leg, 1) < |reference|
    ensures r <= 0.0
    ensures r == 0.0 <==>
              measured[JointIndex(leg, 0)] == reference[JointIndex(leg, 0)] &&
              measured[JointIndex(leg, 1)] == reference[JointIndex(leg, 1)]
  {
    - KneeGain * Abs(measured[JointIndex(leg, 1)] - reference[JointIndex(leg, 1)])
    - KneeGain * Abs(measured[JointIndex(leg, 0)] - reference[JointIndex(leg, 0)])
  }

  /** A joint index splits back into its leg and its joint. */
  lemma JointIndexSplits(leg: nat, joint: nat)
    requires joint < JointsPerLeg
    ensures JointIndex(leg, joint) / JointsPerLeg == leg && JointIndex(leg, joint) % JointsPerLeg == joint
  {
  }

  /** The joint reference after the knee correction of every leg. */
  function CorrectKnees(measured: seq<real>, reference: JointVector): (r: JointVector)
    requires 12 <= |measured|
    ensures forall leg :: 0 <= leg < NumFeet ==>
              r[JointIndex(leg, 0)] == reference[JointIndex(leg, 0)] &&
              r[JointIndex(leg, 1)] == reference[JointIndex(leg, 1)] &&
              r[JointIndex(leg, 2)] <= reference[JointIndex(leg, 2)]
    ensures forall leg :: 0 <= leg < NumFeet ==>
              (r[JointIndex(leg, 2)] == reference[JointIndex(leg, 2)] <==>
                 measured[JointIndex(leg, 0)] == reference[JointIndex(leg, 0)] &&
                 measured[JointIndex(leg, 1)] == reference[JointIndex(leg, 1)])
  {
    forall leg: nat, joint: nat | joint < JointsPerLeg
      ensures JointIndex(leg, joint) / JointsPerLeg == leg && JointIndex(leg, joint) % JointsPerLeg == joint
    {
      JointIndexSplits(leg, joint);
    }
    seq(12, k requires 0 <= k < 12 =>
      if k % JointsPerLeg == 2 then reference[k] + KneeOffset(measured, reference, k / JointsPerLeg)
      else reference[k])
  }

  // ---------------------------------------------------------------------------
  // Contact mode, gains and command assembly

  function ContactMode(feet: seq<FootState>): (r: seq<bool>)
    requires NumFeet <= |feet|
    ensures |r| == NumFeet && forall i :: 0 <= i < NumFeet ==> r[i] == feet[i].contact
  {
    seq(NumFeet, i requires 0 <= i < NumFeet => feet[i].contact)
  }

  /** The four gain vectors the controller stores, each indexed by joint. */
  datatype GainSet = GainSet(stanceKp: seq<real>, stanceKd: seq<real>, swingKp: seq<real>, swingKd: seq<real>)

  function KpFor(gains: GainSet, inContact: bool): seq<real>
  {
    if inContact then gains.stanceKp else gains.swingKp
  }

  function KdFor(gains: GainSet, inContact: bool): seq<real>
  {
    if inContact then gains.stanceKd else gains.swingKd
  }

  /** The gain vectors a leg in this contact mode uses have an entry for every
      joint, so reading them with at() does not throw. */
  predicate LegGainsCover(gains: GainSet, inContact: bool)
  {
    JointsPerLeg <= |KpFor(gains, inContact)| && JointsPerLeg <= |KdFor(gains, inContact)|
  }

  predicate GainsCover(gains: GainSet, contactMode: seq<bool>)
  {
    forall i :: 0 <= i < |contactMode| ==> LegGainsCover(gains, contactMode[i])
  }

  function MotorCommandFor(position: JointVector, velocity: JointVector, tau: JointVector,
                           inContact: bool, gains: GainSet, leg: nat, joint: nat): MotorCommand
    requires leg < NumFeet && joint < JointsPerLeg
    requires joint < |KpFor(gains, inContact)| && joint < |KdFor(gains, inContact)|
  {
    var idx := JointIndex(leg, joint);
    if inContact then
      MotorCommand(position[idx], velocity[idx], tau[idx], gains.stanceKp[joint], gains.stanceKd[joint])
    else
      MotorCommand(position[idx], velocity[idx], 0.0, gains.swingKp[joint], gains.swingKd[joint])
  }

  function LegCommandFor(position: JointVector, velocity: JointVector, tau: JointVector,
                         inContact: bool, gains: GainSet, leg: nat): LegCommand
    requires leg < NumFeet && LegGainsCover(gains, inContact)
  {
    LegCommand(seq(JointsPerLeg, j requires 0 <= j < JointsPerLeg =>
      MotorCommandFor(position, velocity, tau, inContact, gains, leg, j)))
  }

  /** The command array: 3 motor commands per leg with setpoints from the joint
      reference; stance legs get stance gains and the dynamics torque, swing legs
      swing gains and no feed-forward torque. */
  function AssembleCommands(position: JointVector, velocity: JointVector, tau: JointVector,
                            contactMode: seq<bool>, gains: GainSet): (r: Result<LegCommandArray>)
    requires |contactMode| == NumFeet
    ensures r.Ok? <==> GainsCover(gains, contactMode)
    ensures r.Ok? ==> |r.value.legCommands| == NumFeet
    ensures r.Ok? ==> forall i :: 0 <= i < NumFeet ==> |r.value.legCommands[i].motorCommands| == JointsPerLeg
    ensures r.Ok? ==> forall i, j :: 0 <= i < NumFeet && 0 <= j < JointsPerLeg ==>
              var m := r.value.legCommands[i].motorCommands[j];
              m.posSetpoint == position[JointIndex(i, j)] && m.velSetpoint == velocity[JointIndex(i, j)] &&
              (contactMode[i] ==> m.kp == gains.stanceKp[j] && m.kd == gains.stanceKd[j] && m.torqueFf == tau[JointIndex(i, j)]) &&
              (!contactMode[i] ==> m.kp == gains.swingKp[j] && m.kd == gains.swingKd[j] && m.torqueFf == 0.0)
  {
    if GainsCover(gains, contactMode) then
      Ok(LegCommandArray(seq(NumFeet, i requires 0 <= i < NumFeet =>
        LegCommandFor(position, velocity, tau, contactMode[i], gains, i))))
    else OutOfRange
  }

  // ---------------------------------------------------------------------------
  // One tick

  /** What the caller sees after a tick: the command array and the GRF message,
      or an exception with the GRF message as it was left. */
  datatype TickResult = Commands(legCommands: LegCommandArray, grf: GrfArray) | Threw(grf: GrfArray)

  /** Measured joint positions followed by the body position and orientation. */
  function StatePositions(robot: RobotState): seq<real>
  {
    robot.joints.position + robot.body[..6]
  }

  /** Measured joint velocities followed by the body linear and angular velocity. */
  function StateVelocities(robot: RobotState): seq<real>
  {
    robot.joints.velocity + robot.body[6..]
  }

  /** The steps after the reshaping: inverse kinematics of the reshaped reference,
      knee correction, contact mode, inverse dynamics and command assembly. */
  function CommandsFor(robot: RobotState, body: Body, feet: seq<FootState>, grf: GrfArray,
                       numerics: Numerics, gains: GainSet): (r: Result<LegCommandArray>)
    requires StateReadable(robot) && NumFeet <= |feet|
    ensures r.Ok? <==> GainsCover(gains, ContactMode(feet))
    ensures r.Ok? ==> |r.value.legCommands| == NumFeet
  {
    var joints := numerics.ik(body, feet);
    var position := CorrectKnees(StatePositions(robot), joints.position);
    var contactMode := ContactMode(feet);
    var tau := numerics.inverseDynamics(StatePositions(robot), StateVelocities(robot), feet, grf, contactMode);
    AssembleCommands(position, joints.velocity, tau, contactMode, gains)
  }

  /** One tick: the GRF message is always the one the bracket search left, and the
      tick completes exactly when the reshaping reads no missing foot and the gains
      cover every leg's contact mode. */
  function Tick(robot: RobotState, plan: RobotPlan, now: real, numerics: Numerics,
                gains: GainSet, grfIn: GrfArray): (r: TickResult)
    requires PlanReadable(plan) && StateReadable(robot)
    ensures r.grf == FeedForwardGrf(plan, now, grfIn)
    ensures r.Commands? <==>
              var reshaped := ReshapeSwingLegs(InterpolatedReference(plan, now, numerics).feet, plan.states, now);
              reshaped.Ok? && NumFeet <= |reshaped.value| && GainsCover(gains, ContactMode(reshaped.value))
  {
    var grf := FeedForwardGrf(plan, now, grfIn);
    var reference := InterpolatedReference(plan, now, numerics);
    match ReshapeSwingLegs(reference.feet, plan.states, now)
    case OutOfRange => Threw(grf)
    case Ok(feet) =>
      match CommandsFor(robot, reference.body, feet, grf, numerics, gains)
      case OutOfRange => Threw(grf)
      case Ok(commands) => Commands(commands, grf)
  }
}
