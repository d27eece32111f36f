/** The underbrush inverse-dynamics leg controller: the gain store and the per-tick
    synthesis of the leg command array from the local plan, written as the source
    writes them (searches with early exit, in-place updates of the reference and of
    the command array) and each proved to compute what UnderbrushSpec states. */
module UnderbrushInverseDynamics {
  import opened QuadMsgs
  import opened UnderbrushSpec

  /** The bracket search: the first i in 0 .. size-2 with t_i <= now < t_{i+1}. */
  method FindBracket(states: seq<RobotState>, now: real) returns (bracket: Option<nat>)
    ensures bracket == FirstBracket(states, now)
    ensures bracket.Some? ==> IsBracket(states, now, bracket.value)
    ensures bracket.None? <==> forall m: nat :: !IsBracket(states, now, m)
  {
    bracket := None;
    var i := 0;
    while i + 1 < |states|
      invariant FirstBracketFrom(states, now, i) == FirstBracket(states, now)
    {
      if states[i].stamp <= now && now < states[i + 1].stamp {
        bracket := Some(i);
        break;
      }
      i := i + 1;
    }
  }

  /** The scan for the first future sample, among 0 .. size-2, that has `leg` in contact. */
  method ScanForLanding(states: seq<RobotState>, now: real, leg: nat) returns (result: ContactSearch)
    ensures result == NextContactFrom(states, now, leg, 0)
  {
    var j := 0;
    while j + 1 < |states|
      invariant NextContactFrom(states, now, leg, j) == NextContactFrom(states, now, leg, 0)
    {
      if now < states[j].stamp {
        if leg >= |states[j].feet| {
          return ThrowsAt(j);
        }
        if states[j].feet[leg].contact {
          return FoundAt(j);
        }
      }
      j := j + 1;
    }
    return NotFound;
  }

  /** The swing-leg reshaping of the reference feet: each swing leg is aimed at its
      next landing point; `feet` is read, a copy of it is updated in place. */
  method ReshapeReference(feet: seq<FootState>, states: seq<RobotState>, now: real)
    returns (result: Result<seq<FootState>>)
    ensures result == ReshapeSwingLegs(feet, states, now)
  {
    var underbrush := feet;
    for leg := 0 to NumFeet
      invariant leg <= |feet| && |underbrush| == |feet|
      invariant forall k :: leg <= k < |feet| ==> underbrush[k] == feet[k]
      invariant ReshapeLegsFrom(underbrush, states, now, leg) == ReshapeSwingLegs(feet, states, now)
    {
      if leg == |feet| {
        return OutOfRange;
      }
      ghost var before := underbrush;
      if !feet[leg].contact {
        var landing := ScanForLanding(states, now, leg);
        match landing
        case ThrowsAt(_) =>
          return OutOfRange;
        case FoundAt(j) =>
          underbrush := underbrush[leg := AimedAt(underbrush[leg], states[j].feet[leg].position)];
        case NotFound =>
      }
      assert ReshapeFoot(states, now, leg, feet[leg]) == Ok(underbrush[leg]);
      assert underbrush == before[leg := underbrush[leg]];
    }
    return Ok(underbrush);
  }

  /** The knee correction, applied in place to every leg's knee reference. */
  method ApplyKneeCorrection(measured: seq<real>, reference: JointVector) returns (corrected: JointVector)
    requires 12 <= |measured|
    ensures corrected == CorrectKnees(measured, reference)
  {
    corrected := reference;
    for leg := 0 to NumFeet
      invariant forall k :: 0 <= k < 12 && (k % JointsPerLeg != 2 || leg <= k / JointsPerLeg) ==>
                  corrected[k] == reference[k]
      invariant forall l :: 0 <= l < leg ==>
                  corrected[JointIndex(l, 2)] == reference[JointIndex(l, 2)] + KneeOffset(measured, reference, l)
    {
      var abad, hip, knee := JointIndex(leg, 0), JointIndex(leg, 1), JointIndex(leg, 2);
      JointIndexSplits(leg, 0);
      JointIndexSplits(leg, 1);
      JointIndexSplits(leg, 2);
      corrected := corrected[knee := corrected[knee]
                     - KneeGain * Abs(measured[hip] - corrected[hip])
                     - KneeGain * Abs(measured[abad] - corrected[abad])];
    }
    forall k | 0 <= k < 12
      ensures corrected[k] == CorrectKnees(measured, reference)[k]
    {
      JointIndexSplits(k / JointsPerLeg, k % JointsPerLeg);
    }
  }

  /** The contact mode of every leg, read from the reference feet. */
  method LoadContactMode(feet: seq<FootState>) returns (contactMode: seq<bool>)
    requires NumFeet <= |feet|
    ensures contactMode == ContactMode(feet)
  {
    contactMode := [];
    for i := 0 to NumFeet
      invariant contactMode == ContactMode(feet)[..i]
    {
      contactMode := contactMode + [feet[i].contact];
    }
  }

  class UnderbrushInverseDynamicsController {
    var stanceKp: seq<real>
    var stanceKd: seq<real>
    var swingKp: seq<real>
    var swingKd: seq<real>

    /** A new controller has no gains stored yet. */
    constructor ()
      ensures stanceKp == [] && stanceKd == [] && swingKp == [] && swingKd == []
    {
      stanceKp, stanceKd, swingKp, swingKd := [], [], [], [];
    }

    /** The stored gains, as one value. */
    function Gains(): GainSet
      reads this
    {
      GainSet(stanceKp, stanceKd, swingKp, swingKd)
    }

    /** The gain store: replaces all four gain vectors. */
    method SetGains(stanceKp: seq<real>, stanceKd: seq<real>, swingKp: seq<real>, swingKd: seq<real>)
      modifies this
      ensures Gains() == GainSet(stanceKp, stanceKd, swingKp, swingKd)
    {
      this.stanceKp := stanceKp;
      this.stanceKd := stanceKd;
      this.swingKp := swingKp;
      this.swingKd := swingKd;
    }

    /** The command assembly: the array is resized to one leg command per foot and
        every leg to three motor commands, which are then filled in place. */
    method AssembleLegCommands(position: JointVector, velocity: JointVector, tau: JointVector,
                               contactMode: seq<bool>)
      returns (result: Result<LegCommandArray>)
      requires |contactMode| == NumFeet
      ensures result == AssembleCommands(position, velocity, tau, contactMode, Gains())
    {
      ghost var gains := Gains();
      var legs := seq(NumFeet, _ => LegCommand([]));
      for i := 0 to NumFeet
        invariant |legs| == NumFeet
        invariant forall l :: 0 <= l < i ==> LegGainsCover(gains, contactMode[l])
        invariant forall l :: 0 <= l < i ==>
                    legs[l] == LegCommandFor(position, velocity, tau, contactMode[l], gains, l)
      {
        var motors := seq(JointsPerLeg, _ => DefaultMotorCommand);
        for j := 0 to JointsPerLeg
          invariant |motors| == JointsPerLeg
          invariant j <= |KpFor(gains, contactMode[i])| && j <= |KdFor(gains, contactMode[i])|
          invariant forall m :: 0 <= m < j ==>
                      motors[m] == MotorCommandFor(position, velocity, tau, contactMode[i], gains, i, m)
        {
          var idx := JointIndex(i, j);
          var command := MotorCommand(position[idx], velocity[idx], tau[idx], 0.0, 0.0);
          if contactMode[i] {
            if j >= |stanceKp| || j >= |stanceKd| {
              assert !LegGainsCover(gains, contactMode[i]) && !GainsCover(gains, contactMode);
              return OutOfRange;
            }
            command := command.(kp := stanceKp[j], kd := stanceKd[j]);
          } else {
            if j >= |swingKp| || j >= |swingKd| {
              assert !LegGainsCover(gains, contactMode[i]) && !GainsCover(gains, contactMode);
              return OutOfRange;
            }
            command := command.(kp := swingKp[j], kd := swingKd[j], torqueFf := 0.0);
          }
          motors := motors[j := command];
        }
        assert LegCommand(motors) == LegCommandFor(position, velocity, tau, contactMode[i], gains, i);
        legs := legs[i := LegCommand(motors)];
      }
      assert GainsCover(gains, contactMode);
      assert AssembleCommands(position, velocity, tau, contactMode, gains).value.legCommands == legs;
      result := Ok(LegCommandArray(legs));
    }

    /** One control tick: returns what the command array and the GRF message hold
        afterwards (or the exception that ended the tick), and whether the error
        report for a time outside the plan was issued. */
    method ComputeLegCommandArrayFromPlan(robot: RobotState, plan: RobotPlan, now: real,
                                          numerics: Numerics, grfIn: GrfArray)
      returns (result: TickResult, timeError: bool)
      requires PlanReadable(plan) && StateReadable(robot)
      ensures timeError == TimeOutOfRange(plan, now)
      ensures result == Tick(robot, plan, now, numerics, Gains(), grfIn)
    {
      var statePositions := robot.joints.position + robot.body[..6];
      var stateVelocities := robot.joints.velocity + robot.body[6..];

      timeError := now < plan.states[0].stamp || now > plan.states[|plan.states| - 1].stamp;

      var reference := DefaultRobotState();
      var grf := grfIn;
      var bracket := FindBracket(plan.states, now);
      if bracket.Some? {
        var i := bracket.value;
        var fraction := InterpFraction(plan.states[i].stamp, plan.states[i + 1].stamp, now);
        reference := numerics.interp(plan.states[i], plan.states[i + 1], fraction);
        grf := plan.grfs[i];
      }

      assert reference == InterpolatedReference(plan, now, numerics);
      assert grf == FeedForwardGrf(plan, now, grfIn);
      var reshaped := ReshapeReference(reference.feet, plan.states, now);
      if reshaped.OutOfRange? {
        return Threw(grf), timeError;
      }
      var feet := reshaped.value;
      var joints := numerics.ik(reference.body, feet);
      var position := ApplyKneeCorrection(statePositions, joints.position);

      var contactMode := LoadContactMode(feet);
      var tau := numerics.inverseDynamics(statePositions, stateVelocities, feet, grf, contactMode);

      var commands := AssembleLegCommands(position, joints.velocity, tau, contactMode);
      if commands.OutOfRange? {
        return Threw(grf), timeError;
      }
      result := Commands(commands.value, grf);
    }
  }
}
