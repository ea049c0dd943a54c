/** Helpers on the real-valued kinematic inputs. */
module Kinematics {

  /** `fabs`. */
  function Abs(x: real): (r: real)
    ensures r >= 0.0 && (r == x || r == -x)
  {
    if x < 0.0 then -x else x
  }
}
