/** Scalar and vector helpers of the tracer (tracer_math.h, tracer_math.cpp),
    with `f32` idealised as `real`. */
module Vectors {

  datatype V2 = V2(x: real, y: real)

  datatype V3 = V3(x: real, y: real, z: real)

  /** A half-line `origin + t * direction`. */
  datatype Ray = Ray(origin: V3, direction: V3)

  datatype Sphere = Sphere(center: V3, radius: real)

  datatype IntersectionInfo = IntersectionInfo(point: V3, normal: V3, frontFace: bool)

  const Zero: V3 := V3(0.0, 0.0, 0.0)

  function Splat(s: real): V3 { V3(s, s, s) }

  function Add(a: V3, b: V3): V3 { V3(a.x + b.x, a.y + b.y, a.z + b.z) }

  function Sub(a: V3, b: V3): V3 { V3(a.x - b.x, a.y - b.y, a.z - b.z) }

  function Neg(v: V3): V3 { V3(-v.x, -v.y, -v.z) }

  function Scale(v: V3, s: real): V3 { V3(v.x * s, v.y * s, v.z * s) }

  function Dot(a: V3, b: V3): real { a.x * b.x + a.y * b.y + a.z * b.z }

  /** The point of `ray` at parameter `t`. */
  function SampleRay(ray: Ray, t: real): V3 { Add(ray.origin, Scale(ray.direction, t)) }

  /** Mirror `v` about the plane whose normal is `n`. */
  function Reflect(v: V3, n: V3): V3 { Sub(v, Scale(n, 2.0 * Dot(v, n))) }

  /** Row-major index of pixel (x, y) in a buffer `width` pixels wide. */
  function GetPixelIndex(x: nat, y: nat, width: nat): (r: nat)
    ensures x < width ==> y * width <= r < (y + 1) * width
  {
    y * width + x
  }

  lemma PixelIndexBound(x: nat, y: nat, width: nat, height: nat)
    requires x < width && y < height
    ensures GetPixelIndex(x, y, width) < width * height
  {
    assert (y + 1) * width <= height * width by {
      assert height * width - (y + 1) * width == (height - y - 1) * width;
    }
  }

  /** Reading an index back as (i % width, i / width) recovers the pixel. */
  lemma PixelIndexRoundTrip(x: nat, y: nat, width: nat)
    requires x < width
    ensures GetPixelIndex(x, y, width) % width == x
    ensures GetPixelIndex(x, y, width) / width == y
  {
    var i := GetPixelIndex(x, y, width);
    var q, m := i / width, i % width;
    assert i == q * width + m;
    assert (q - y) * width == x - m;
    MultipleBelowWidth(q - y, width);
  }

  /** A multiple of `width` strictly between `-width` and `width` is zero. */
  lemma MultipleBelowWidth(k: int, width: nat)
    ensures k >= 1 ==> k * width >= width
    ensures k <= -1 ==> k * width <= 0 - width
  {
  }

  /** Every index below `width * height` is the index of exactly one pixel. */
  lemma PixelIndexOnto(i: nat, width: nat, height: nat)
    requires i < width * height
    ensures width > 0 && i % width < width && i / width < height
    ensures GetPixelIndex(i % width, i / width, width) == i
  {
    assert width > 0;
    var q := i / width;
    assert i == q * width + i % width;
    assert (height - q) * width > i % width - width;
  }

  /** The branchless `Minimum`: a selection flag of 1.0 or 0.0 weights the two operands. */
  function Minimum(a: real, b: real): (r: real)
    ensures r <= a && r <= b && (r == a || r == b)
  {
    var selection := if a <= b then 1.0 else 0.0;
    a * selection + (1.0 - selection) * b
  }

  /** `Maximium`, spelled as in the source: the branchless maximum. */
  function Maximium(a: real, b: real): (r: real)
    ensures r >= a && r >= b && (r == a || r == b)
  {
    var selection := if a >= b then 1.0 else 0.0;
    a * selection + (1.0 - selection) * b
  }

  function Clamp(value: real, lo: real, hi: real): (r: real)
    ensures lo <= hi ==> lo <= r <= hi
    ensures lo <= value <= hi ==> r == value
    ensures value < lo <= hi ==> r == lo
    ensures lo <= hi < value ==> r == hi
    ensures hi < lo ==> r == hi
  {
    Minimum(Maximium(value, lo), hi)
  }

  /** Component-wise clamp (the vector overload of `Clamp`). */
  function ClampV3(v: V3, lo: V3, hi: V3): V3
  {
    V3(Clamp(v.x, lo.x, hi.x), Clamp(v.y, lo.y, hi.y), Clamp(v.z, lo.z, hi.z))
  }

  predicate InUnitCube(v: V3)
  {
    0.0 <= v.x <= 1.0 && 0.0 <= v.y <= 1.0 && 0.0 <= v.z <= 1.0
  }

  lemma ClampV3InUnitCube(v: V3)
    ensures InUnitCube(ClampV3(v, Splat(0.0), Splat(1.0)))
    ensures InUnitCube(v) ==> ClampV3(v, Splat(0.0), Splat(1.0)) == v
  {
  }

  /** A fraction `value` in [0, 1] of a nonnegative `span` lies within the span. */
  lemma WeightedSpan(span: real, value: real)
    ensures 0.0 <= span && 0.0 <= value <= 1.0 ==> 0.0 <= span * value <= span
    ensures value == 0.0 ==> span * value == 0.0
    ensures value == 1.0 ==> span * value == span
  {
    if 0.0 <= span && 0.0 <= value <= 1.0 {
      ProductNonNegative(span, value);
      ProductNonNegative(span, 1.0 - value);
      assert span - span * value == span * (1.0 - value);
    }
  }

  lemma ProductNonNegative(a: real, b: real)
    requires 0.0 <= a && 0.0 <= b
    ensures 0.0 <= a * b
  {
  }

  /** The `Lerp` macro on scalars. */
  function Lerp(a: real, b: real, t: real): (r: real)
    ensures t == 0.0 ==> r == a
    ensures t == 1.0 ==> r == b
    ensures 0.0 <= t <= 1.0 && a <= b ==> a <= r <= b
    ensures 0.0 <= t <= 1.0 && b <= a ==> b <= r <= a
  {
    var r := a * (1.0 - t) + b * t;
    LerpWithin(a, b, t, r);
    r
  }

  lemma LerpWithin(a: real, b: real, t: real, r: real)
    requires r == a * (1.0 - t) + b * t
    ensures t == 0.0 ==> r == a
    ensures t == 1.0 ==> r == b
    ensures 0.0 <= t <= 1.0 && a <= b ==> a <= r <= b
    ensures 0.0 <= t <= 1.0 && b <= a ==> b <= r <= a
  {
    if t == 0.0 || t == 1.0 {
    } else if 0.0 <= t <= 1.0 {
      if a <= b {
        ProductNonNegative(b - a, t);
        ProductNonNegative(b - a, 1.0 - t);
        Sandwich(r, a, b, (b - a) * t, (b - a) * (1.0 - t));
      }
      if b <= a {
        ProductNonNegative(a - b, t);
        ProductNonNegative(a - b, 1.0 - t);
        Sandwich(r, b, a, (a - b) * (1.0 - t), (a - b) * t);
      }
    }
  }

  /** `r` lies between `lo` and `hi` when its distances to both are nonnegative products. */
  lemma Sandwich(r: real, lo: real, hi: real, below: real, above: real)
    requires r - lo == below && hi - r == above && 0.0 <= below && 0.0 <= above
    ensures lo <= r <= hi
  {
  }

  /** `Length`: the square root of the vector's dot product with itself. Floating-point
      square roots are not modelled; `sqrt` stands for the one the caller uses. */
  function Length(v: V3, sqrt: real -> real): real
  {
    sqrt(Dot(v, v))
  }

  /** `Normalize`, given the vector's magnitude: divide by a positive magnitude,
      otherwise return `fallback`. */
  function Normalize(v: V3, magnitude: real, fallback: V3): (r: V3)
    ensures magnitude > 0.0 ==> Scale(r, magnitude) == v
    ensures !(magnitude > 0.0) ==> r == fallback
  {
    if magnitude > 0.0 then Scale(v, 1.0 / magnitude) else fallback
  }

  /** Dividing by the true length gives a unit vector. */
  lemma NormalizeIsUnit(v: V3, magnitude: real, fallback: V3)
    requires magnitude > 0.0 && magnitude * magnitude == Dot(v, v)
    ensures Dot(Normalize(v, magnitude, fallback), Normalize(v, magnitude, fallback)) == 1.0
  {
    var k := 1.0 / magnitude;
    var r := Normalize(v, magnitude, fallback);
    assert r == Scale(v, k);
    calc {
      Dot(r, r);
      == (v.x * v.x + v.y * v.y + v.z * v.z) * (k * k);
      == (magnitude * magnitude) * (k * k);
      == (magnitude * k) * (magnitude * k);
      == { assert magnitude * k == 1.0; }
      1.0;
    }
  }

  lemma DotNeg(a: V3, b: V3)
    ensures Dot(a, Neg(b)) == -Dot(a, b)
  {
  }

  /** The outward unit normal of `sphere` at the point of `ray` at parameter `t`. */
  function OutwardNormal(ray: Ray, sphere: Sphere, t: real, sqrt: real -> real): V3
  {
    var toPoint := Sub(SampleRay(ray, t), sphere.center);
    Normalize(toPoint, Length(toPoint, sqrt), Zero)
  }

  /** Intersection point and the normal turned to face the incoming ray. */
  function GetRaySphereIntersectionInfo(ray: Ray, sphere: Sphere, t: real, sqrt: real -> real): (r: IntersectionInfo)
    ensures r.point == SampleRay(ray, t)
    ensures r.normal == OutwardNormal(ray, sphere, t, sqrt) || r.normal == Neg(OutwardNormal(ray, sphere, t, sqrt))
    ensures Dot(ray.direction, r.normal) <= 0.0
    ensures r.frontFace <==> Dot(ray.direction, OutwardNormal(ray, sphere, t, sqrt)) <= 0.0
    ensures r.frontFace ==> r.normal == OutwardNormal(ray, sphere, t, sqrt)
    ensures !r.frontFace ==> r.normal == Neg(OutwardNormal(ray, sphere, t, sqrt))
  {
    var point := SampleRay(ray, t);
    var normal := OutwardNormal(ray, sphere, t, sqrt);
    DotNeg(ray.direction, normal);
    if Dot(ray.direction, normal) > 0.0 then
      IntersectionInfo(point, Neg(normal), false)
    else
      IntersectionInfo(point, normal, true)
  }

  /** `|(origin + v*d) - center|^2` expanded as a quadratic in `v`. */
  lemma SquaredDistanceAlongRay(origin: V3, center: V3, d: V3, v: real)
    ensures var o := Sub(origin, center);
            var p := Sub(Add(origin, Scale(d, v)), center);
            Dot(p, p) == Dot(d, d) * v * v + 2.0 * Dot(o, d) * v + Dot(o, o)
  {
    SquareAlong(origin.x - center.x, d.x, v);
    SquareAlong(origin.y - center.y, d.y, v);
    SquareAlong(origin.z - center.z, d.z, v);
  }

  lemma SquareAlong(o: real, d: real, v: real)
    ensures (o + d * v) * (o + d * v) == d * d * v * v + 2.0 * (o * d) * v + o * o
  {
  }

  /** A point of the ray is on the sphere exactly when its parameter `v` is a root of
      the quadratic `A*v^2 + B*v + C` that `RayCastSphere` solves. */
  lemma SphereQuadratic(ray: Ray, sphere: Sphere, v: real)
    ensures var o := Sub(ray.origin, sphere.center);
            var d := ray.direction;
            var p := Sub(SampleRay(ray, v), sphere.center);
            (Dot(p, p) == sphere.radius * sphere.radius
             <==> Dot(d, d) * v * v + 2.0 * Dot(o, d) * v + (Dot(o, o) - sphere.radius * sphere.radius) == 0.0)
  {
    var o := Sub(ray.origin, sphere.center);
    var d := ray.direction;
    var p := Sub(SampleRay(ray, v), sphere.center);
    assert SampleRay(ray, v) == Add(ray.origin, Scale(d, v));
    SquaredDistanceAlongRay(ray.origin, sphere.center, d, v);
    Rebalance(Dot(p, p), Dot(d, d) * v * v + 2.0 * Dot(o, d) * v, Dot(o, o), sphere.radius * sphere.radius);
  }

  lemma Rebalance(x: real, m: real, n: real, k: real)
    requires x == m + n
    ensures x == k <==> m + (n - k) == 0.0
  {
  }
}
