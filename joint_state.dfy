/** The `sensor_msgs::JointState` message that travels on the "joint_states" topic. */
module JointStateMsg {

  /** A ROS time stamp, taken from the clock by the caller. */
  type Time = int

  /** Only the fields the two nodes touch: the header stamp, the joint names and the positions.
      Positions are the doubles of the message, kept as exact reals. */
  datatype JointState = JointState(stamp: Time, name: seq<string>, position: seq<real>)

  /** A default-constructed message: zero stamp, no names, no positions. */
  const EmptyJointState := JointState(0, [], [])
}
