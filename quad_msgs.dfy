/** The message types the leg controller reads and writes (quad_msgs), as values.
    Headers and names are not modelled; a default-constructed message has empty
    variable-length arrays and zero scalars, as ROS messages do. */
module QuadMsgs {

  datatype Vec3 = Vec3(x: real, y: real, z: real)

  const Zero3: Vec3 := Vec3(0.0, 0.0, 0.0)

  /** One foot of a RobotState: task-space position, velocity, acceleration and
      the planned contact flag. */
  datatype FootState = FootState(position: Vec3, velocity: Vec3, acceleration: Vec3, contact: bool)

  /** The body state in the 12-scalar form the controller converts it to
      (position, roll-pitch-yaw, linear velocity, angular velocity). */
  type Body = b: seq<real> | |b| == 12 witness seq(12, _ => 0.0)

  /** A joint-space vector of 3 joints (abduction, hip, knee) for each of 4 legs. */
  type JointVector = v: seq<real> | |v| == 12 witness seq(12, _ => 0.0)

  datatype JointState = JointState(position: seq<real>, velocity: seq<real>)

  /** A timestamped robot state: a measured state or one sample of a plan. */
  datatype RobotState = RobotState(stamp: real, body: Body, joints: JointState, feet: seq<FootState>)

  /** A default-constructed RobotState: no joints and no feet. */
  function DefaultRobotState(): (s: RobotState)
    ensures s.feet == [] && s.joints.position == [] && s.joints.velocity == []
  {
    RobotState(0.0, seq(12, _ => 0.0), JointState([], []), [])
  }

  /** A set of ground reaction forces, one vector per foot. */
  datatype GrfArray = GrfArray(vectors: seq<Vec3>, contactStates: seq<bool>)

  /** The local plan: timestamped states and one GRF set per state. */
  datatype RobotPlan = RobotPlan(states: seq<RobotState>, grfs: seq<GrfArray>)

  datatype MotorCommand = MotorCommand(posSetpoint: real, velSetpoint: real, torqueFf: real, kp: real, kd: real)

  const DefaultMotorCommand: MotorCommand := MotorCommand(0.0, 0.0, 0.0, 0.0, 0.0)

  datatype LegCommand = LegCommand(motorCommands: seq<MotorCommand>)

  datatype LegCommandArray = LegCommandArray(legCommands: seq<LegCommand>)
}
