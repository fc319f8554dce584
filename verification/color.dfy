/**
  Colours and vectors of the renderer. The source computes with 32-bit floats
  (glm::vec3 / glm::vec4); the model uses exact reals.
 */
module Color {

  datatype Vec3 = Vec3(x: real, y: real, z: real)

  /** An RGBA colour, one real per channel (glm::vec4). */
  datatype Rgba = Rgba(r: real, g: real, b: real, a: real)

  const Black := Rgba(0.0, 0.0, 0.0, 1.0)
  const Transparent := Rgba(0.0, 0.0, 0.0, 0.0)

  function Dot(u: Vec3, v: Vec3): real {
    u.x * v.x + u.y * v.y + u.z * v.z
  }

  /** Component-wise sum (glm `+=` on vec4). */
  function Add(c: Rgba, d: Rgba): Rgba {
    Rgba(c.r + d.r, c.g + d.g, c.b + d.b, c.a + d.a)
  }

  /** Component-wise multiplication by a scalar. */
  function Scale(c: Rgba, k: real): Rgba {
    Rgba(c.r * k, c.g * k, c.b * k, c.a * k)
  }

  /** Component-wise division by a scalar (glm `/=`). */
  function Divide(c: Rgba, n: real): Rgba
    requires n != 0.0
  {
    Rgba(c.r / n, c.g / n, c.b / n, c.a / n)
  }

  /** vec4(0) is the identity of the component-wise sum. */
  lemma AddTransparent(c: Rgba)
    ensures Add(Transparent, c) == c && Add(c, Transparent) == c
  {
  }

  lemma AddAssociative(c: Rgba, d: Rgba, e: Rgba)
    ensures Add(Add(c, d), e) == Add(c, Add(d, e))
  {
  }

  /** Adding c to n copies of c gives n + 1 copies. */
  lemma ScaleSucc(c: Rgba, n: real)
    ensures Add(Scale(c, n), c) == Scale(c, n + 1.0)
  {
    assert c.r * n + c.r == c.r * (n + 1.0);
    assert c.g * n + c.g == c.g * (n + 1.0);
    assert c.b * n + c.b == c.b * (n + 1.0);
    assert c.a * n + c.a == c.a * (n + 1.0);
  }

  /** j copies of c plus k copies of c are j + k copies. */
  lemma AddScales(c: Rgba, j: real, k: real)
    ensures Add(Scale(c, j), Scale(c, k)) == Scale(c, j + k)
  {
    assert c.r * j + c.r * k == c.r * (j + k);
    assert c.g * j + c.g * k == c.g * (j + k);
    assert c.b * j + c.b * k == c.b * (j + k);
    assert c.a * j + c.a * k == c.a * (j + k);
  }

  /** Dividing k copies of c by k gives c back. */
  lemma DivideScale(c: Rgba, k: real)
    requires k != 0.0
    ensures Divide(Scale(c, k), k) == c
  {
    assert c.r * k / k == c.r;
    assert c.g * k / k == c.g;
    assert c.b * k / k == c.b;
    assert c.a * k / k == c.a;
  }

  predicate InUnit(v: real) {
    0.0 <= v <= 1.0
  }

  /** Every channel lies in [0, 1]. */
  predicate InGamut(c: Rgba) {
    InUnit(c.r) && InUnit(c.g) && InUnit(c.b) && InUnit(c.a)
  }

  /** glm::clamp(v, 0, 1) on one channel: min(max(v, 0), 1). */
  function Clamp01(v: real): (w: real)
    ensures InUnit(w)
    ensures InUnit(v) ==> w == v
    ensures v < 0.0 ==> w == 0.0
    ensures v > 1.0 ==> w == 1.0
  {
    if v < 0.0 then 0.0 else if v > 1.0 then 1.0 else v
  }

  /** glm::clamp(color, vec4(0), vec4(1)), channel by channel. */
  function Clamp(c: Rgba): (d: Rgba)
    ensures InGamut(d)
    ensures InGamut(c) ==> d == c
  {
    Rgba(Clamp01(c.r), Clamp01(c.g), Clamp01(c.b), Clamp01(c.a))
  }
}
