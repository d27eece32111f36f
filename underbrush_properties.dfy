/** Properties of one controller tick that relate several of its steps or several
    inputs: where a bracket exists, when the tick ends in an exception, what a
    completed tick emits, and how the swing reshaping behaves when repeated or when
    the plan's last sample changes. */
module UnderbrushProperties {
  import opened QuadMsgs
  import opened UnderbrushSpec

  /** Plan timestamps never decrease. */
  ghost predicate NonDecreasing(states: seq<RobotState>)
  {
    forall a, b :: 0 <= a <= b < |states| ==> states[a].stamp <= states[b].stamp
  }

  // ---------------------------------------------------------------------------
  // Brackets

  /** Between two samples whose stamps straddle `now` there is a bracket. */
  lemma {:induction false} BracketBetween(states: seq<RobotState>, now: real, lo: nat, hi: nat)
    requires lo < hi < |states| && states[lo].stamp <= now < states[hi].stamp
    ensures exists i: nat :: lo <= i < hi && IsBracket(states, now, i)
    decreases hi - lo
  {
    if states[lo + 1].stamp <= now {
      BracketBetween(states, now, lo + 1, hi);
    } else {
      assert IsBracket(states, now, lo);
    }
  }

  /** Any plan, sorted or not, has a bracket for a time from its first stamp up to
      (not including) its last. */
  lemma BracketWithinSpan(states: seq<RobotState>, now: real)
    requires 0 < |states| && states[0].stamp <= now < states[|states| - 1].stamp
    ensures FirstBracket(states, now).Some?
  {
    BracketBetween(states, now, 0, |states| - 1);
  }

  /** In a sorted plan a bracket is unique, so the search finds exactly it. */
  lemma SortedBracketUnique(states: seq<RobotState>, now: real, i: nat)
    requires NonDecreasing(states) && IsBracket(states, now, i)
    ensures FirstBracket(states, now) == Some(i)
  {
  }

  /** In a sorted plan a bracket exists exactly when t_first <= now < t_last:
      never for a time the error report flags, and never for now == t_last. */
  lemma SortedPlanBracketIff(states: seq<RobotState>, now: real)
    requires 0 < |states| && NonDecreasing(states)
    ensures FirstBracket(states, now).Some? <==> states[0].stamp <= now < states[|states| - 1].stamp
  {
    var r := FirstBracket(states, now);
    if states[0].stamp <= now < states[|states| - 1].stamp {
      BracketWithinSpan(states, now);
    }
    if r.Some? {
      assert states[0].stamp <= states[r.value].stamp;
      assert states[r.value + 1].stamp <= states[|states| - 1].stamp;
    }
  }

  /** On a sorted plan the error report stays silent exactly when the search finds a
      bracket or `now` equals the last stamp; the report is not a test for a bracket. */
  lemma SilentReportIff(plan: RobotPlan, now: real)
    requires PlanReadable(plan) && NonDecreasing(plan.states)
    ensures !TimeOutOfRange(plan, now) <==>
              FirstBracket(plan.states, now).Some? || now == plan.states[|plan.states| - 1].stamp
  {
    SortedPlanBracketIff(plan.states, now);
    assert plan.states[0].stamp <= plan.states[|plan.states| - 1].stamp;
  }

  /** The feed-forward GRFs are constant over a bracket of a sorted plan: every time
      in [t_i, t_{i+1}) gets the set of sample i. */
  lemma GrfConstantOverBracket(plan: RobotPlan, now1: real, now2: real, i: nat)
    requires PlanReadable(plan) && NonDecreasing(plan.states)
    requires IsBracket(plan.states, now1, i) && IsBracket(plan.states, now2, i)
    ensures FeedForwardGrf(plan, now1, GrfArray([], [])) == FeedForwardGrf(plan, now2, GrfArray([], [])) == plan.grfs[i]
  {
    SortedBracketUnique(plan.states, now1, i);
    SortedBracketUnique(plan.states, now2, i);
  }

  // ---------------------------------------------------------------------------
  // Ticks that end in an exception

  /** Without a bracket the reference keeps its default, foot-less value, so reading
      its first foot throws: the tick ends in std::out_of_range with the GRF message
      untouched. */
  lemma NoBracketAbortsTick(robot: RobotState, plan: RobotPlan, now: real, numerics: Numerics,
                            gains: GainSet, grfIn: GrfArray)
    requires PlanReadable(plan) && StateReadable(robot)
    requires FirstBracket(plan.states, now).None?
    ensures Tick(robot, plan, now, numerics, gains, grfIn) == Threw(grfIn)
  {
    assert InterpolatedReference(plan, now, numerics).feet == [];
  }

  /** On a sorted plan, a time the error report flags, and also a time equal to the
      last stamp (which it does not flag), ends the tick in an exception. */
  lemma OutsideSpanAbortsTick(robot: RobotState, plan: RobotPlan, now: real, numerics: Numerics,
                              gains: GainSet, grfIn: GrfArray)
    requires PlanReadable(plan) && StateReadable(robot) && NonDecreasing(plan.states)
    requires TimeOutOfRange(plan, now) || now == plan.states[|plan.states| - 1].stamp
    ensures Tick(robot, plan, now, numerics, gains, grfIn) == Threw(grfIn)
  {
    SortedPlanBracketIff(plan.states, now);
    NoBracketAbortsTick(robot, plan, now, numerics, gains, grfIn);
  }

  /** The gain store starts empty: a tick that reaches the command assembly before
      any gains were set ends in an exception. */
  lemma EmptyGainsAbortAssembly(position: JointVector, velocity: JointVector, tau: JointVector,
                                contactMode: seq<bool>)
    requires |contactMode| == NumFeet
    ensures AssembleCommands(position, velocity, tau, contactMode, GainSet([], [], [], [])).OutOfRange?
  {
    assert !LegGainsCover(GainSet([], [], [], []), contactMode[0]);
  }

  // ---------------------------------------------------------------------------
  // Ticks that complete

  /** Every plan sample has all four feet. */
  predicate FeetComplete(states: seq<RobotState>)
  {
    forall j :: 0 <= j < |states| ==> NumFeet <= |states[j].feet|
  }

  predicate GainsComplete(gains: GainSet)
  {
    JointsPerLeg <= |gains.stanceKp| && JointsPerLeg <= |gains.stanceKd| &&
    JointsPerLeg <= |gains.swingKp| && JointsPerLeg <= |gains.swingKd|
  }

  /** With a bracket, four feet in every sample and in the interpolated reference, and
      three entries in every gain vector, the tick completes. */
  lemma WellFormedTickCompletes(robot: RobotState, plan: RobotPlan, now: real, numerics: Numerics,
                                gains: GainSet, grfIn: GrfArray)
    requires PlanReadable(plan) && StateReadable(robot)
    requires FirstBracket(plan.states, now).Some?
    requires NumFeet <= |InterpolatedReference(plan, now, numerics).feet|
    requires FeetComplete(plan.states) && GainsComplete(gains)
    ensures Tick(robot, plan, now, numerics, gains, grfIn).Commands?
  {
    var feet := InterpolatedReference(plan, now, numerics).feet;
    forall leg | 0 <= leg < NumFeet
      ensures !ReshapeFoot(plan.states, now, leg, feet[leg]).OutOfRange?
    {
    }
  }

  /** A completed tick emits the GRF set of the earlier bracket sample. */
  lemma CompletedTickGrf(robot: RobotState, plan: RobotPlan, now: real, numerics: Numerics,
                         gains: GainSet, grfIn: GrfArray)
    requires PlanReadable(plan) && StateReadable(robot)
    ensures Tick(robot, plan, now, numerics, gains, grfIn).Commands? ==>
              FirstBracket(plan.states, now).Some? &&
              Tick(robot, plan, now, numerics, gains, grfIn).grf == plan.grfs[FirstBracket(plan.states, now).value]
  {
    if FirstBracket(plan.states, now).None? {
      NoBracketAbortsTick(robot, plan, now, numerics, gains, grfIn);
    }
  }

  /** The commands a completed tick emits: exactly three motor commands for each of
      the four legs. Motor j of leg i takes joint 3i+j of the kinematic reference of
      the reshaped feet, with the knee lowered by its correction; a leg whose
      interpolated contact flag is set gets the stance gains and the inverse-dynamics
      torque, any other leg the swing gains and no feed-forward torque. */
  lemma CompletedTickCommands(robot: RobotState, plan: RobotPlan, now: real, numerics: Numerics,
                              gains: GainSet, grfIn: GrfArray)
    requires PlanReadable(plan) && StateReadable(robot)
    ensures Tick(robot, plan, now, numerics, gains, grfIn).Commands? ==>
            var reference := InterpolatedReference(plan, now, numerics);
            ReshapeSwingLegs(reference.feet, plan.states, now).Ok? &&
            var feet := ReshapeSwingLegs(reference.feet, plan.states, now).value;
            NumFeet <= |feet| && NumFeet <= |reference.feet| &&
            var joints := numerics.ik(reference.body, feet);
            var tau := numerics.inverseDynamics(StatePositions(robot), StateVelocities(robot), feet,
                                                FeedForwardGrf(plan, now, grfIn), ContactMode(feet));
            var legs := Tick(robot, plan, now, numerics, gains, grfIn).legCommands.legCommands;
            |legs| == NumFeet &&
            forall i, j :: 0 <= i < NumFeet && 0 <= j < JointsPerLeg ==>
              |legs[i].motorCommands| == JointsPerLeg &&
              MotorFollows(legs[i].motorCommands[j], StatePositions(robot), joints, tau,
                           reference.feet[i].contact, gains, i, j)
  {
    if Tick(robot, plan, now, numerics, gains, grfIn).Commands? {
      var reference := InterpolatedReference(plan, now, numerics);
      var reshaped := ReshapeSwingLegs(reference.feet, plan.states, now);
      assert reshaped.Ok?;
      var grf := FeedForwardGrf(plan, now, grfIn);
      var commands := CommandsFor(robot, reference.body, reshaped.value, grf, numerics, gains);
      assert commands.Ok?;
      CommandsFollowReference(robot, reference.body, reshaped.value, grf, numerics, gains);
    }
  }

  /** The commands assembled from a reshaped reference follow its kinematic joints,
      the knee correction, the inverse-dynamics torques and the gain schedule of its
      contact flags. */
  lemma CommandsFollowReference(robot: RobotState, body: Body, feet: seq<FootState>, grf: GrfArray,
                                numerics: Numerics, gains: GainSet)
    requires StateReadable(robot) && NumFeet <= |feet|
    ensures CommandsFor(robot, body, feet, grf, numerics, gains).Ok? ==>
            var legs := CommandsFor(robot, body, feet, grf, numerics, gains).value.legCommands;
            var tau := numerics.inverseDynamics(StatePositions(robot), StateVelocities(robot), feet, grf,
                                                ContactMode(feet));
            |legs| == NumFeet &&
            forall i, j :: 0 <= i < NumFeet && 0 <= j < JointsPerLeg ==>
              |legs[i].motorCommands| == JointsPerLeg &&
              MotorFollows(legs[i].motorCommands[j], StatePositions(robot), numerics.ik(body, feet), tau,
                           feet[i].contact, gains, i, j)
  {
    var joints := numerics.ik(body, feet);
    var position := CorrectKnees(StatePositions(robot), joints.position);
    var contactMode := ContactMode(feet);
    var tau := numerics.inverseDynamics(StatePositions(robot), StateVelocities(robot), feet, grf, contactMode);
    var assembled := AssembleCommands(position, joints.velocity, tau, contactMode, gains);
    assert CommandsFor(robot, body, feet, grf, numerics, gains) == assembled;
    if assembled.Ok? {
      forall i, j | 0 <= i < NumFeet && 0 <= j < JointsPerLeg
        ensures |assembled.value.legCommands[i].motorCommands| == JointsPerLeg
        ensures MotorFollows(assembled.value.legCommands[i].motorCommands[j], StatePositions(robot),
                             joints, tau, feet[i].contact, gains, i, j)
      {
        AssembledMotorFollows(StatePositions(robot), joints, feet, tau, gains, i, j);
      }
    }
  }

  /** One motor command of an assembled array follows its joint of the knee-corrected
      kinematic reference, its torque and the gain schedule of its leg. */
  lemma AssembledMotorFollows(measured: seq<real>, joints: JointReference, feet: seq<FootState>,
                              tau: JointVector, gains: GainSet, i: nat, j: nat)
    requires 12 <= |measured| && NumFeet <= |feet| && i < NumFeet && j < JointsPerLeg
    requires AssembleCommands(CorrectKnees(measured, joints.position), joints.velocity, tau,
                              ContactMode(feet), gains).Ok?
    ensures var legs := AssembleCommands(CorrectKnees(measured, joints.position), joints.velocity, tau,
                                         ContactMode(feet), gains).value.legCommands;
            |legs[i].motorCommands| == JointsPerLeg &&
            MotorFollows(legs[i].motorCommands[j], measured, joints, tau, feet[i].contact, gains, i, j)
  {
    var position := CorrectKnees(measured, joints.position);
    var contactMode := ContactMode(feet);
    var legs := AssembleCommands(position, joints.velocity, tau, contactMode, gains).value.legCommands;
    assert contactMode[i] == feet[i].contact;
    assert LegGainsCover(gains, contactMode[i]);
    var m := legs[i].motorCommands[j];
    assert m.posSetpoint == position[JointIndex(i, j)] && m.velSetpoint == joints.velocity[JointIndex(i, j)];
    if j == 0 {
      assert position[JointIndex(i, 0)] == joints.position[JointIndex(i, 0)];
    } else if j == 1 {
      assert position[JointIndex(i, 1)] == joints.position[JointIndex(i, 1)];
    } else {
      JointIndexSplits(i, 2);
      assert position[JointIndex(i, 2)] == joints.position[JointIndex(i, 2)] + KneeOffset(measured, joints.position, i);
    }
  }

  /** Motor j of leg i follows joint 3i+j of the kinematic reference after the knee
      correction (abduction and hip as given, the knee lowered by its offset), and
      its leg's contact flag selects the gains and the feed-forward torque. */
  ghost predicate MotorFollows(m: MotorCommand, measured: seq<real>, joints: JointReference, tau: JointVector,
                               inContact: bool, gains: GainSet, i: nat, j: nat)
    requires 12 <= |measured| && i < NumFeet && j < JointsPerLeg
  {
    var idx := JointIndex(i, j);
    (j < 2 ==> m.posSetpoint == joints.position[idx]) &&
    (j == 2 ==> m.posSetpoint == joints.position[idx] + KneeOffset(measured, joints.position, i)) &&
    m.posSetpoint <= joints.position[idx] &&
    m.velSetpoint == joints.velocity[idx] &&
    (inContact ==> j < |gains.stanceKp| && j < |gains.stanceKd| &&
                   m.kp == gains.stanceKp[j] && m.kd == gains.stanceKd[j] && m.torqueFf == tau[idx]) &&
    (!inContact ==> j < |gains.swingKp| && j < |gains.swingKd| &&
                    m.kp == gains.swingKp[j] && m.kd == gains.swingKd[j] && m.torqueFf == 0.0)
  }

  // ---------------------------------------------------------------------------
  // Swing reshaping

  /** Reshaping a foot that was already reshaped changes nothing. */
  lemma ReshapeFootIdempotent(states: seq<RobotState>, now: real, leg: nat, foot: FootState)
    requires ReshapeFoot(states, now, leg, foot).Ok?
    ensures ReshapeFoot(states, now, leg, ReshapeFoot(states, now, leg, foot).value) == ReshapeFoot(states, now, leg, foot)
  {
  }

  /** Reshaping the reshaped reference again gives the same reference. */
  lemma ReshapeIdempotent(feet: seq<FootState>, states: seq<RobotState>, now: real)
    requires ReshapeSwingLegs(feet, states, now).Ok?
    ensures ReshapeSwingLegs(ReshapeSwingLegs(feet, states, now).value, states, now) == ReshapeSwingLegs(feet, states, now)
  {
    var once := ReshapeSwingLegs(feet, states, now).value;
    forall k | 0 <= k < NumFeet
      ensures ReshapeFoot(states, now, k, once[k]) == Ok(once[k])
    {
      ReshapeFootIdempotent(states, now, k, feet[k]);
    }
    var twice := ReshapeSwingLegs(once, states, now);
    assert twice.Ok?;
    assert twice.value == once;
  }

  /** The next-contact scan never looks at the plan's last sample: replacing it
      does not change the outcome. */
  lemma {:induction false} LastSampleNeverExamined(states: seq<RobotState>, last: RobotState,
                                                    now: real, leg: nat, j: nat)
    requires 0 < |states|
    ensures NextContactFrom(states[..|states| - 1] + [last], now, leg, j) == NextContactFrom(states, now, leg, j)
    decreases |states| - j
  {
    var other := states[..|states| - 1] + [last];
    assert |other| == |states|;
    if j + 1 < |states| {
      assert other[j] == states[j];
      LastSampleNeverExamined(states, last, now, leg, j + 1);
    }
  }
}
