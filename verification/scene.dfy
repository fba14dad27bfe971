/**
 * The shapes a scene is made of, as the editor, the scene loader and the
 * simulation see them: boxes and circles that emit, collide or drain.
 */
module Scene {
  import opened Wrappers

  datatype Vec2 = Vec2(x: real, y: real) {
    function Plus(o: Vec2): Vec2 { Vec2(x + o.x, y + o.y) }
    function Minus(o: Vec2): Vec2 { Vec2(x - o.x, y - o.y) }
    function Scale(s: real): Vec2 { Vec2(x * s, y * s) }
  }

  const ShapeTypeBox: int := 0
  const ShapeTypeCircle: int := 1

  /**
   * A shape object. The emission settings and the friction may be absent
   * from a scene file, which JavaScript reads as `undefined`.
   */
  datatype Shape = Shape(
    id: string,
    shape: int,
    functionality: int,
    position: Vec2,
    halfSize: Vec2,
    radius: real,
    rotation: real,
    emitMaterial: Option<real>,
    emissionRate: Option<real>,
    emissionSpeed: Option<real>,
    friction: Option<real>)

  /** `x ? x : 0` for an optional number: absent and zero both give 0. */
  function OrZero(v: Option<real>): (r: real)
    ensures v.Some? && v.value != 0.0 ==> r == v.value
    ensures v.None? || v.value == 0.0 ==> r == 0.0
  {
    if v.Some? then v.value else 0.0
  }
}
