/** Small value types shared by the shader and orchestrator models.
    GLSL floats and JavaScript numbers are modelled as exact reals. */
module Common {

  datatype Option<+T> = None | Some(value: T)

  /** A GLSL `vec2`. */
  datatype Vec2 = Vec2(x: real, y: real)

  /** A GLSL `vec3` / Three.js `Vector3`. */
  datatype Vec3 = Vec3(x: real, y: real, z: real)

  /** A colour with three channels (GLSL `vec3`, Three.js `Color`). */
  datatype Rgb = Rgb(r: real, g: real, b: real)

  /** A colour with alpha (GLSL `vec4` read from a texture). */
  datatype Rgba = Rgba(rgb: Rgb, a: real)

  function Abs(x: real): (r: real)
    ensures r >= 0.0
    ensures r == x || r == -x
  {
    if x < 0.0 then -x else x
  }

  /** GLSL `clamp(x, lo, hi)` for `lo <= hi`. */
  function Clamp(x: real, lo: real, hi: real): (r: real)
    requires lo <= hi
    ensures lo <= r <= hi
    ensures lo <= x <= hi ==> r == x
  {
    if x < lo then lo else if x > hi then hi else x
  }

  // Facts about real arithmetic and floor that the solver does not find alone.

  lemma MulLe(a: real, b: real, s: real)
    requires 0.0 <= s && a <= b
    ensures s * a <= s * b
  {
    assert s * b - s * a == s * (b - a);
  }

  lemma MulLt(a: real, b: real, s: real)
    requires 0.0 < s && a < b
    ensures s * a < s * b
  {
    assert s * b - s * a == s * (b - a);
  }

  lemma DivLe(a: real, b: real, m: real)
    requires 0.0 < m && a <= b
    ensures a / m <= b / m
  {
  }

  lemma DivLt(a: real, b: real, m: real)
    requires 0.0 < m && a < b
    ensures a / m < b / m
  {
  }

  lemma FloorBounds(x: real)
    ensures x.Floor as real <= x < x.Floor as real + 1.0
  {
  }

  lemma FloorOfInt(k: int)
    ensures (k as real).Floor == k
  {
  }

  lemma FloorMonotone(x: real, y: real)
    requires x <= y
    ensures x.Floor <= y.Floor
  {
    FloorBounds(x);
    FloorBounds(y);
  }

  /** floor(x + m) == floor(x) + m for an integer m. */
  lemma FloorShift(x: real, m: int)
    ensures (x + m as real).Floor == x.Floor + m
  {
    FloorBounds(x);
    FloorBounds(x + m as real);
  }
}
