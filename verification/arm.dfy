/** The PR2 arm helper of the grasping experiments: the names of an arm's joints, the
    mirroring between the left and the right arm, the named postures, the gripper
    commands and the bookkeeping of the latest joint-state message. */
module PR2Arm {
  import opened Common

  /** The joints of one arm, from the shoulder to the wrist. */
  const JointNameSuffixes: seq<string> := [
    "_shoulder_pan_joint", "_shoulder_lift_joint", "_upper_arm_roll_joint",
    "_elbow_flex_joint", "_forearm_roll_joint", "_wrist_flex_joint", "_wrist_roll_joint"]

  /** L_POSTURES: the named postures of the left arm. */
  const LPostures: map<string, seq<real>> := map[
    "untucked" := [0.4, 1.0, 0.0, -2.05, 0.0, -0.1, 0.0],
    "tucked" := [0.06, 1.25, 1.79, -1.68, -1.73, -0.10, -0.09],
    "up" := [0.33, -0.35, 2.59, -0.15, 0.59, -1.41, -0.27],
    "side" := [1.83, -0.33, 1.01, -1.43, 1.1, -2.10, 3.07],
    "mantis" := [2.03, -0.054, 1.01, -1.47, 0.55, -1.42, 3.96]]

  /** Every posture sets the seven joints. */
  lemma PosturesHaveSevenJoints()
    ensures forall p :: p in LPostures ==> |LPostures[p]| == 7
  {
  }

  /** _mirror_arm_joints: the same posture for the other arm. The roll and pan joints
      (0, 2, 4, 6) change sign; the lift and flex joints (1, 3, 5) are kept. */
  function Mirror(x: seq<real>): (r: seq<real>)
    requires |x| >= 7
    ensures |r| == 7
    ensures forall i :: 0 <= i < 7 ==> r[i] == (if i % 2 == 0 then -x[i] else x[i])
  {
    [-x[0], x[1], -x[2], x[3], -x[4], x[5], -x[6]]
  }

  /** Mirroring is its own inverse: r -> l -> r. */
  lemma MirrorInvolution(x: seq<real>)
    requires |x| == 7
    ensures Mirror(Mirror(x)) == x
  {
    var m := Mirror(Mirror(x));
    forall i | 0 <= i < 7
      ensures m[i] == x[i]
    {
      assert Mirror(x)[i] == (if i % 2 == 0 then -x[i] else x[i]);
    }
  }

  /** A sensor_msgs/JointState: names and positions, paired up by position. */
  datatype JointState = JointState(name: seq<string>, position: seq<real>)

  /** zip(msg.name, msg.position): as many pairs as the shorter list has entries. */
  function Zip(names: seq<string>, values: seq<real>): (pairs: seq<(string, real)>)
    ensures |pairs| == if |names| < |values| then |names| else |values|
    ensures forall i :: 0 <= i < |pairs| ==> pairs[i] == (names[i], values[i])
  {
    var n := if |names| < |values| then |names| else |values|;
    seq(n, i requires 0 <= i < n => (names[i], values[i]))
  }

  /** The value of the first pair named name, if any. */
  function FirstMatch(name: string, pairs: seq<(string, real)>): Option<real>
  {
    if |pairs| == 0 then None
    else if pairs[0].0 == name then Some(pairs[0].1)
    else FirstMatch(name, pairs[1..])
  }

  /** FirstMatch finds v exactly when the first pair named name is at some position and
      carries v. */
  lemma {:induction false} FirstMatchAt(name: string, pairs: seq<(string, real)>)
    ensures FirstMatch(name, pairs).None? <==> forall i :: 0 <= i < |pairs| ==> pairs[i].0 != name
    ensures FirstMatch(name, pairs).Some? ==>
              exists i :: 0 <= i < |pairs| && pairs[i] == (name, FirstMatch(name, pairs).value) &&
                forall k :: 0 <= k < i ==> pairs[k].0 != name
  {
    if |pairs| > 0 && pairs[0].0 != name {
      FirstMatchAt(name, pairs[1..]);
      if FirstMatch(name, pairs).Some? {
        var i :| 0 <= i < |pairs[1..]| && pairs[1..][i] == (name, FirstMatch(name, pairs).value) &&
                 forall k :: 0 <= k < i ==> pairs[1..][k].0 != name;
        assert pairs[i + 1] == (name, FirstMatch(name, pairs).value);
      }
      forall i | 0 <= i < |pairs| && FirstMatch(name, pairs).None?
        ensures pairs[i].0 != name
      {
        if i > 0 {
          assert pairs[i] == pairs[1..][i - 1];
        }
      }
    } else if |pairs| > 0 {
      assert pairs[0] == (name, FirstMatch(name, pairs).value);
    }
  }

  /** The positions of names found in pairs, in the order of names; names without a
      pair are skipped. */
  function Collect(names: seq<string>, pairs: seq<(string, real)>): seq<real>
  {
    if |names| == 0 then []
    else
      var rest := Collect(names[..|names| - 1], pairs);
      match FirstMatch(names[|names| - 1], pairs)
      case None => rest
      case Some(v) => rest + [v]
  }

  /** At most one position per name, and one for every name iff every name has a pair;
      then position k is the first value named names[k]. */
  lemma {:induction false} CollectFull(names: seq<string>, pairs: seq<(string, real)>)
    ensures |Collect(names, pairs)| <= |names|
    ensures |Collect(names, pairs)| == |names| <==> forall k :: 0 <= k < |names| ==> FirstMatch(names[k], pairs).Some?
    ensures |Collect(names, pairs)| == |names| ==>
              forall k :: 0 <= k < |names| ==> Collect(names, pairs)[k] == FirstMatch(names[k], pairs).value
  {
    if |names| > 0 {
      var init := names[..|names| - 1];
      CollectFull(init, pairs);
      assert forall k :: 0 <= k < |init| ==> init[k] == names[k];
      if |Collect(names, pairs)| == |names| {
        assert |Collect(init, pairs)| == |init|;
      }
    }
  }

  /** The scan for the first pair named name. */
  method Find(name: string, pairs: seq<(string, real)>) returns (found: Option<real>)
    ensures found == FirstMatch(name, pairs)
  {
    var m := 0;
    while m < |pairs| && pairs[m].0 != name
      invariant 0 <= m <= |pairs|
      invariant FirstMatch(name, pairs) == FirstMatch(name, pairs[m..])
    {
      assert pairs[m..][1..] == pairs[m + 1..];
      m := m + 1;
    }
    found := if m < |pairs| then Some(pairs[m].1) else None;
  }

  /** A gripper command: the goal position, the effort limit and whether the caller
      waits for the gripper to settle. */
  datatype GripperGoal = GripperGoal(position: real, maxEffort: real, block: bool)

  class Arm {
    const armName: string
    const defaultSpeed: real
    const toolFrame: string
    const jointNames: seq<string>
    const gripperJointName: string
    const minGrasp: real
    const maxGrasp: real
    /** in Newtons */
    const defaultMaxEffort: real
    var currentJoints: Option<seq<real>>
    var currentGrasp: Option<real>
    var jointStateMsg: Option<JointState>

    /** Arm(arm_name, default_speed) for "left" or "right": every joint name, the tool
        frame and the gripper joint carry the arm's initial, and the gripper opens from
        -0.01 to 0.08. The wait for the first joint-state message is not modelled:
        the positions are unknown until JointStateCallback runs. */
    constructor(armName: string, defaultSpeed: real)
      requires armName == "left" || armName == "right"
      ensures this.armName == armName && this.defaultSpeed == defaultSpeed
      ensures |jointNames| == 7 && forall k :: 0 <= k < 7 ==> jointNames[k] == [armName[0]] + JointNameSuffixes[k]
      ensures toolFrame == [armName[0]] + "_gripper_tool_frame"
      ensures gripperJointName == [armName[0]] + "_gripper_joint"
      ensures minGrasp == -0.01 && maxGrasp == 0.08 && defaultMaxEffort == 40.0
      ensures currentJoints.None? && currentGrasp.None? && jointStateMsg.None?
    {
      this.armName, this.defaultSpeed := armName, defaultSpeed;
      var c := armName[0];
      toolFrame := [c] + "_gripper_tool_frame";
      jointNames := seq(7, k requires 0 <= k < 7 => [c] + JointNameSuffixes[k]);
      gripperJointName := [c] + "_gripper_joint";
      minGrasp, maxGrasp := -0.01, 0.08;
      defaultMaxEffort := 40.0;
      currentJoints, currentGrasp, jointStateMsg := None, None, None;
    }

    /** _joint_state_callback: keeps the message, sets the joint positions to the first
        value the message gives for each joint name, in joint-name order (names the
        message lacks are skipped), and the grasp to the first value named after the
        gripper joint, leaving it as it was when there is none. */
    method JointStateCallback(msg: JointState)
      modifies this
      ensures jointStateMsg == Some(msg)
      ensures currentJoints == Some(Collect(jointNames, Zip(msg.name, msg.position)))
      ensures currentGrasp == match FirstMatch(gripperJointName, Zip(msg.name, msg.position))
                              case None => old(currentGrasp)
                              case Some(v) => Some(v)
    {
      var pairs := Zip(msg.name, msg.position);
      var j: seq<real> := [];
      for k := 0 to |jointNames|
        invariant j == Collect(jointNames[..k], pairs)
        invariant currentGrasp == old(currentGrasp)
      {
        var found := Find(jointNames[k], pairs);
        assert jointNames[..k + 1][..k] == jointNames[..k];
        if found.Some? {
          j := j + [found.value];
        }
      }
      assert jointNames[..|jointNames|] == jointNames;
      jointStateMsg := Some(msg);
      currentJoints := Some(j);
      var grasp := Find(gripperJointName, pairs);
      if grasp.Some? {
        currentGrasp := grasp;
      }
    }

    /** go_to_posture: the joints sent to go_to_joints for a known posture, which the
        right arm mirrors; None for an unknown posture, which the source's assertion
        rejects. */
    function PostureJoints(posture: string): (r: Option<seq<real>>)
      ensures r.Some? <==> posture in LPostures
      ensures r.Some? ==> |r.value| == 7
    {
      if posture !in LPostures then None
      else if armName == "left" then Some(LPostures[posture])
      else Some(Mirror(LPostures[posture]))
    }

    /** set_gripper: the goal sent to the gripper, with the default effort when none is
        given; None when grasp lies outside [min_grasp, max_grasp], which the source's
        assertion rejects. */
    function SetGripper(grasp: real, maxEffort: Option<real>, block: bool): (r: Option<GripperGoal>)
      ensures r.Some? <==> minGrasp <= grasp <= maxGrasp
      ensures r.Some? ==> r.value.position == grasp && r.value.block == block
      ensures r.Some? ==> r.value.maxEffort == (if maxEffort.Some? then maxEffort.value else defaultMaxEffort)
    {
      if !(minGrasp <= grasp <= maxGrasp) then None
      else Some(GripperGoal(grasp, if maxEffort.Some? then maxEffort.value else defaultMaxEffort, block))
    }

    /** close_gripper: set_gripper to min_grasp. */
    function CloseGripper(maxEffort: Option<real>, block: bool): (r: Option<GripperGoal>)
      requires minGrasp <= maxGrasp
      ensures r.Some? && r.value.position == minGrasp && r.value.block == block
    {
      SetGripper(minGrasp, maxEffort, block)
    }

    /** open_gripper as written: set_gripper to max_grasp, without passing block on, so
        the call always waits. */
    function OpenGripperAsWritten(maxEffort: Option<real>, block: bool): (r: Option<GripperGoal>)
      requires minGrasp <= maxGrasp
      ensures r.Some? && r.value.position == maxGrasp && r.value.block
    {
      SetGripper(maxGrasp, maxEffort, true)
    }

    /** open_gripper: set_gripper to max_grasp, waiting as the caller asks. */
    function OpenGripper(maxEffort: Option<real>, block: bool): (r: Option<GripperGoal>)
      requires minGrasp <= maxGrasp
      ensures r.Some? && r.value.position == maxGrasp && r.value.block == block
    {
      SetGripper(maxGrasp, maxEffort, block)
    }
  }

  /** The right arm's postures are the mirror images of the left arm's, and mirroring
      them again gives the left arm's back. */
  lemma PosturesMirrored(left: Arm, right: Arm, posture: string)
    requires left.armName == "left" && right.armName == "right" && posture in LPostures
    ensures right.PostureJoints(posture) == Some(Mirror(left.PostureJoints(posture).value))
    ensures Mirror(right.PostureJoints(posture).value) == left.PostureJoints(posture).value
  {
    PosturesHaveSevenJoints();
    MirrorInvolution(LPostures[posture]);
  }

  /** open_gripper(block=False) still waits for the gripper, unlike close_gripper. */
  lemma OpenGripperIgnoresBlock(arm: Arm, maxEffort: Option<real>)
    requires arm.minGrasp <= arm.maxGrasp
    ensures arm.OpenGripperAsWritten(maxEffort, false).value.block
    ensures !arm.CloseGripper(maxEffort, false).value.block
    ensures !arm.OpenGripper(maxEffort, false).value.block
  {
  }

  /** The joint names of an arm are pairwise distinct and differ from its gripper joint,
      so each looks up its own entry of the message. */
  lemma JointNamesDistinct(c: char, a: nat, b: nat)
    requires a < b < 7
    ensures [c] + JointNameSuffixes[a] != [c] + JointNameSuffixes[b]
    ensures [c] + JointNameSuffixes[a] != [c] + "_gripper_joint"
  {
    assert ([c] + JointNameSuffixes[a])[1..] == JointNameSuffixes[a];
    assert ([c] + JointNameSuffixes[b])[1..] == JointNameSuffixes[b];
    assert ([c] + "_gripper_joint")[1..] == "_gripper_joint";
  }
}
