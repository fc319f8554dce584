/**
  Renderer::TraceRay: one hard-coded sphere of radius 0.5 at the origin, lit
  by a directional light. The ray/sphere discriminant is polynomial and is
  modelled exactly; the cosine term needs sqrt and normalize and is supplied
  as the parameter `lambert`, the value dot(normalize(closer hit point), -lightDir).
 */
module Tracer {
  import opened Color

  datatype Ray = Ray(origin: Vec3, direction: Vec3)

  const SphereRadius: real := 0.5

  /**
    The discriminant b^2 - 4ac of |origin + t direction|^2 = radius^2. A ray
    starting inside the sphere always has a non-negative discriminant.
   */
  function Discriminant(ray: Ray): (d: real)
    ensures Dot(ray.origin, ray.origin) < SphereRadius * SphereRadius ==> d >= 0.0
  {
    var a := Dot(ray.direction, ray.direction);
    var b := 2.0 * Dot(ray.origin, ray.direction);
    var c := Dot(ray.origin, ray.origin) - SphereRadius * SphereRadius;
    DotSelfNonNegative(ray.direction);
    assert c < 0.0 ==> 4.0 * a * c <= 0.0 by {
      if c < 0.0 {
        ProductNonPositive(4.0 * a, c);
      }
    }
    b * b - 4.0 * a * c
  }

  lemma DotSelfNonNegative(v: Vec3)
    ensures Dot(v, v) >= 0.0
  {
  }

  lemma ProductNonPositive(p: real, n: real)
    requires p >= 0.0 && n < 0.0
    ensures p * n <= 0.0
  {
  }

  /** The point origin + t direction. */
  function PointAt(ray: Ray, t: real): Vec3 {
    Vec3(ray.origin.x + t * ray.direction.x, ray.origin.y + t * ray.direction.y, ray.origin.z + t * ray.direction.z)
  }

  /**
    If the line of the ray meets the sphere at any parameter t, the ray counts
    as a hit: the discriminant is (2at + b)^2. The sign of t is not examined,
    so a sphere behind the ray origin is a hit too.
   */
  lemma {:induction false} LineMeetsSphereHits(ray: Ray, t: real)
    requires Dot(PointAt(ray, t), PointAt(ray, t)) == SphereRadius * SphereRadius
    ensures Hits(ray)
  {
    OnSphereQuadratic(ray, t);
    RootDiscriminant(Dot(ray.direction, ray.direction), 2.0 * Dot(ray.origin, ray.direction),
                     Dot(ray.origin, ray.origin) - SphereRadius * SphereRadius, t);
  }

  /** A parameter t at which the ray's line meets the sphere is a root of a t^2 + b t + c. */
  lemma OnSphereQuadratic(ray: Ray, t: real)
    requires Dot(PointAt(ray, t), PointAt(ray, t)) == SphereRadius * SphereRadius
    ensures Dot(ray.direction, ray.direction) * (t * t) + 2.0 * Dot(ray.origin, ray.direction) * t
            + (Dot(ray.origin, ray.origin) - SphereRadius * SphereRadius) == 0.0
  {
    DotPointAt(ray, t);
  }

  /** A quadratic a t^2 + b t + c with a real root t has b^2 - 4ac >= 0. */
  lemma RootDiscriminant(a: real, b: real, c: real, t: real)
    ensures a * (t * t) + b * t + c == 0.0 ==> b * b - 4.0 * a * c >= 0.0
  {
    DiscriminantIdentity(a, b, c, t);
    SquareNonNegative(2.0 * a * t + b);
  }

  lemma SquareNonNegative(e: real)
    ensures e * e >= 0.0
  {
  }

  /** |origin + t direction|^2 as a quadratic in t. */
  lemma DotPointAt(ray: Ray, t: real)
    ensures Dot(PointAt(ray, t), PointAt(ray, t))
            == Dot(ray.direction, ray.direction) * (t * t) + 2.0 * Dot(ray.origin, ray.direction) * t + Dot(ray.origin, ray.origin)
  {
    SquareOfSum(ray.origin.x, ray.direction.x, t);
    SquareOfSum(ray.origin.y, ray.direction.y, t);
    SquareOfSum(ray.origin.z, ray.direction.z, t);
  }

  /** b^2 - 4ac = (2at + b)^2 - 4a(at^2 + bt + c). */
  lemma DiscriminantIdentity(a: real, b: real, c: real, t: real)
    ensures b * b - 4.0 * a * c == (2.0 * a * t + b) * (2.0 * a * t + b) - 4.0 * a * (a * (t * t) + b * t + c)
  {
  }

  /** (o + t v)^2 = o^2 + 2 t o v + t^2 v^2. */
  lemma SquareOfSum(o: real, v: real, t: real)
    ensures (o + t * v) * (o + t * v) == o * o + 2.0 * t * (o * v) + (t * t) * (v * v)
  {
  }

  predicate Hits(ray: Ray) {
    Discriminant(ray) >= 0.0
  }

  function Max(a: real, b: real): real {
    if a >= b then a else b
  }

  /** A miss is opaque black; a hit is the sphere colour (1, 0, 1) times max(lambert, 0), alpha 1. */
  function TraceRay(ray: Ray, lambert: Ray -> real): (c: Rgba)
    ensures c.a == 1.0
    ensures !Hits(ray) ==> c == Black
    ensures c.g == 0.0 && c.r == c.b && c.r >= 0.0
    ensures Hits(ray) && lambert(ray) > 0.0 ==> c.r == lambert(ray)
    ensures Hits(ray) && lambert(ray) <= 0.0 ==> c == Black
  {
    if Discriminant(ray) < 0.0 then
      Black
    else
      var strength := Max(lambert(ray), 0.0);
      Rgba(1.0 * strength, 0.0 * strength, 1.0 * strength, 1.0)
  }

  /**
    A ray along -z through the sphere centre hits from every start point on
    the z axis: with d < -0.5 the sphere lies entirely behind the origin and
    still counts, because the hit test has no t > 0 condition.
   */
  lemma CentralRayHits(d: real)
    ensures Hits(Ray(Vec3(0.0, 0.0, d), Vec3(0.0, 0.0, -1.0)))
  {
  }

  /** A ray parallel to the z axis misses exactly when it passes farther than the radius from it. */
  lemma ParallelRayHits(px: real, py: real, pz: real)
    ensures Hits(Ray(Vec3(px, py, pz), Vec3(0.0, 0.0, -1.0)))
            <==> px * px + py * py <= SphereRadius * SphereRadius
  {
  }
}
