/** Constants of the ten-storey shear-building environment and the one numeric
    helper shared by its parts. Floating-point values are modelled as exact
    reals. */
module Building {

  /** Number of floors above the base (`floor_num`). */
  const FloorNum: nat := 10

  /** Height of every storey, used both for node positions and drift ratios. */
  const StoryHeight: real := 3.0

  /** Lumped mass given to every floor node. */
  const MassPerFloor: real := 100000.0

  /** Stiffness of the single elastic material shared by all link elements. */
  const LinkStiffness: real := 100000000.0

  /** Tag of that material. */
  const MaterialTag: nat := 1

  /** Magnitude of a real value. */
  function Abs(x: real): (r: real)
    ensures r >= 0.0
    ensures r == x || r == -x
  {
    if x < 0.0 then -x else x
  }
}
