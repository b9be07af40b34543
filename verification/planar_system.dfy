/** The planar arm of the belief-space planner: a four-joint arm in the plane whose
    state is the four joint angles followed by the two object coordinates, moved by
    adding the joint velocities over one time step. */
module Planar {
  import opened Common

  /** M_PI, as the double the C library defines it. */
  const Pi: real := 3.141592653589793

  /** The four limit vectors of init and get_limits. */
  datatype Limits = Limits(xMin: Vec, xMax: Vec, uMin: Vec, uMax: Vec)

  /** The limits init fills in. Every joint angle and joint velocity lies in
      [-pi/2, pi/2]; the object coordinates range over [-infty, infty]; with is_static
      the last joint is held still. */
  function PlanarLimits(isStatic: bool, infty: real): (l: Limits)
    ensures |l.xMin| == |l.xMax| == 6 && |l.uMin| == |l.uMax| == 4
    ensures forall i :: 0 <= i < 4 ==> l.xMin[i] == -Pi / 2.0 && l.xMax[i] == Pi / 2.0
    ensures forall i :: 4 <= i < 6 ==> l.xMin[i] == -infty && l.xMax[i] == infty
    ensures forall i :: 0 <= i < 3 ==> l.uMin[i] == -Pi / 2.0 && l.uMax[i] == Pi / 2.0
    ensures isStatic ==> l.uMin[3] == 0.0 && l.uMax[3] == 0.0
    ensures !isStatic ==> l.uMin[3] == -Pi / 2.0 && l.uMax[3] == Pi / 2.0
  {
    var h := Pi / 2.0;
    var last := if isStatic then 0.0 else h;
    Limits([-h, -h, -h, -h, -infty, -infty], [h, h, h, h, infty, infty],
           [-h, -h, -h, -last], [h, h, h, last])
  }

  /** Every lower limit is at most its upper limit (for the state, as long as INFTY is
      not negative), and the last control can move iff the arm is not static. */
  lemma LimitsOrdered(isStatic: bool, infty: real)
    ensures var l := PlanarLimits(isStatic, infty);
      && (infty >= 0.0 ==> forall i :: 0 <= i < 6 ==> l.xMin[i] <= l.xMax[i])
      && (forall i :: 0 <= i < 4 ==> l.uMin[i] <= l.uMax[i])
      && (l.uMin[3] < l.uMax[3] <==> !isStatic)
  {
    var l := PlanarLimits(isStatic, infty);
    forall i | 0 <= i < 4
      ensures l.uMin[i] <= l.uMax[i]
    {
      if i == 3 {
        assert isStatic || l.uMin[3] == -Pi / 2.0;
      }
    }
  }

  class PlanarSystem {
    var camera: Vec
    var obj: Vec
    var isStatic: bool
    var robotOrigin: Vec
    var linkLengths: Vec
    var jDim: nat
    var cDim: nat
    var xDim: nat
    var uDim: nat
    var zDim: nat
    var qDim: nat
    var rDim: nat
    var xMin: Vec
    var xMax: Vec
    var uMin: Vec
    var uMax: Vec
    var dt: real

    /** The sizes init sets: four joints, two object coordinates, four joint velocities,
        six observations, and noise of the control's and the observation's size. */
    ghost predicate Valid()
      reads this
    {
      && jDim == 4 && cDim == 2 && xDim == 6 && uDim == 4 && zDim == 6
      && qDim == uDim && rDim == zDim && dt == 1.0
    }

    /** PlanarSystem(camera, object, is_static), which runs init: stores the camera, the
        object and is_static, places the arm's base at the origin with links of 0.5, 0.25
        and 0.125, and sets the sizes, the limits and the time step of 1. infty is the
        INFTY constant. */
    constructor(camera: Vec, obj: Vec, isStatic: bool, infty: real)
      ensures Valid() && this.camera == camera && this.obj == obj && this.isStatic == isStatic
      ensures robotOrigin == [0.0, 0.0] && linkLengths == [0.5, 0.25, 0.125]
      ensures Limits(xMin, xMax, uMin, uMax) == PlanarLimits(isStatic, infty)
    {
      this.camera, this.obj, this.isStatic := camera, obj, isStatic;
      robotOrigin := [0.0, 0.0];
      linkLengths := [0.5, 0.25, 0.125];
      jDim, cDim := 4, 2;
      xDim, uDim, zDim := 6, 4, 6;
      var l := PlanarLimits(isStatic, infty);
      xMin, xMax := l.xMin, l.xMax;
      uMin, uMax := l.uMin, l.uMax;
      qDim, rDim := 4, 6;
      dt := 1.0;
    }

    /** dynfunc: the joint angles advance by dt times the control plus the noise; the
        object coordinates after them stay as they are. */
    function DynFunc(x: Vec, u: Vec, q: Vec): (r: Vec)
      requires jDim <= |x| && |u| == jDim && |q| == jDim
      reads this
      ensures |r| == |x|
      ensures forall i :: jDim <= i < |x| ==> r[i] == x[i]
      ensures forall i :: 0 <= i < jDim ==> r[i] == x[i] + dt * (u[i] + q[i])
    {
      var j, h := jDim, dt;
      seq(|x|, i requires 0 <= i < |x| => if i < j then x[i] + h * (u[i] + q[i]) else x[i])
    }

    /** The noise only adds to the control: dynfunc(x, u, q) == dynfunc(x, u + q, 0). */
    lemma NoiseIsControl(x: Vec, u: Vec, q: Vec)
      requires jDim <= |x| && |u| == jDim && |q| == jDim
      ensures DynFunc(x, u, q) == DynFunc(x, Add(u, q), Zeros(jDim))
    {
      var a, b := DynFunc(x, u, q), DynFunc(x, Add(u, q), Zeros(jDim));
      assert forall i :: 0 <= i < |x| ==> a[i] == b[i];
    }

    /** Two noise-free steps are one step with the summed control. */
    lemma StepsCompose(x: Vec, u1: Vec, u2: Vec)
      requires jDim <= |x| && |u1| == jDim && |u2| == jDim
      ensures DynFunc(DynFunc(x, u1, Zeros(jDim)), u2, Zeros(jDim)) == DynFunc(x, Add(u1, u2), Zeros(jDim))
    {
      var z := Zeros(jDim);
      var y := DynFunc(x, u1, z);
      var a, b := DynFunc(y, u2, z), DynFunc(x, Add(u1, u2), z);
      forall i | 0 <= i < |x|
        ensures a[i] == b[i]
      {
        if i < jDim {
          calc {
            a[i];
            y[i] + dt * u2[i];
            x[i] + dt * u1[i] + dt * u2[i];
            x[i] + dt * (u1[i] + u2[i]);
            b[i];
          }
        }
      }
    }

    /** get_limits: the four stored limit vectors. */
    method GetLimits() returns (xMin': Vec, xMax': Vec, uMin': Vec, uMax': Vec)
      ensures xMin' == xMin && xMax' == xMax && uMin' == uMin && uMax' == uMax
    {
      xMin', xMax', uMin', uMax' := xMin, xMax, uMin, uMax;
    }
  }

  /** The entrywise sum of two vectors of the same length. */
  function Add(a: Vec, b: Vec): (r: Vec)
    requires |a| == |b|
    ensures |r| == |a| && forall i :: 0 <= i < |a| ==> r[i] == a[i] + b[i]
  {
    seq(|a|, i requires 0 <= i < |a| => a[i] + b[i])
  }

  /** zeros<vec>(n) */
  function Zeros(n: nat): (r: Vec)
    ensures |r| == n && forall i :: 0 <= i < n ==> r[i] == 0.0
  {
    Fill(n, 0.0)
  }
}
