/** The world of spheres and materials, the ray-sphere cast and the nearest-hit scan
    (tracer_main.cpp). */
module Scene {
  import opened Vectors

  const MaxMaterialCount: nat := 1024
  const MaxMeshCount: nat := 1024

  /** `MAX_F32` (`FLT_MAX`), where the nearest-hit scan starts. */
  const MaxF32: real := 340282346638528859811704183484516925440.0

  /** The offset along the normal that lifts a bounce point off the surface. */
  const SurfaceOffset: real := 0.00001

  datatype Material = Material(albedo: V3, roughness: real)

  datatype Mesh = Mesh(sphere: Sphere, materialIndex: nat)

  /** A zero-initialised slot of `World.Materials` / `World.Meshes`. */
  const BlankMaterial: Material := Material(Zero, 0.0)
  const BlankMesh: Mesh := Mesh(Sphere(Zero, 0.0), 0)

  /** What `RayCastSphere` reports: whether the ray hits, and the parameter it wrote to `OutT`. */
  datatype Cast = Cast(hit: bool, t: real)

  /** `B^2/4 - A*C` for the ray/sphere quadratic, as `RayCastSphere` computes it. */
  function DiscriminantOver4(ray: Ray, sphere: Sphere): real
  {
    var toCenter := Sub(ray.origin, sphere.center);
    var a := Dot(ray.direction, ray.direction);
    var halfB := Dot(toCenter, ray.direction);
    var c := Dot(toCenter, toCenter) - sphere.radius * sphere.radius;
    halfB * halfB - a * c
  }

  /** `RayCastSphere` (and its SIMD twin `RayCastSphereFast`): the smaller root of the
      ray/sphere quadratic, a hit when the discriminant and that root are positive.
      With a zero direction `A` is 0 and so is the discriminant: no hit, and the
      parameter (an infinity or NaN in floating point) is reported as 0. */
  function RayCastSphere(ray: Ray, sphere: Sphere, sqrt: real -> real): (r: Cast)
    ensures r.hit ==> r.t > 0.0 && DiscriminantOver4(ray, sphere) > 0.0
  {
    var toCenter := Sub(ray.origin, sphere.center);
    var a := Dot(ray.direction, ray.direction);
    var halfB := Dot(toCenter, ray.direction);
    var discriminantOver4 := DiscriminantOver4(ray, sphere);
    if a == 0.0 then Cast(false, 0.0)
    else
      var closestT := (-halfB - sqrt(discriminantOver4)) / a;
      Cast(discriminantOver4 > 0.0 && closestT > 0.0, closestT)
  }

  /** A reported hit comes from a nonzero direction, and its parameter is the smaller root. */
  lemma HitIsSmallerRoot(ray: Ray, sphere: Sphere, sqrt: real -> real)
    ensures var r := RayCastSphere(ray, sphere, sqrt);
            var o := Sub(ray.origin, sphere.center);
            var d := ray.direction;
            r.hit ==> Dot(d, d) > 0.0 && Dot(d, d) * r.t == -Dot(o, d) - sqrt(DiscriminantOver4(ray, sphere))
  {
    var d := ray.direction;
    if RayCastSphere(ray, sphere, sqrt).hit {
      assert Dot(d, d) == d.x * d.x + d.y * d.y + d.z * d.z;
      assert Dot(d, d) != 0.0;
    }
  }

  /** The requirement on `sqrt` the sphere lemmas make: where the discriminant is
      positive, `sqrt` returns its nonnegative square root. */
  predicate TrueRootOfDiscriminant(ray: Ray, sphere: Sphere, sqrt: real -> real)
  {
    var disc := DiscriminantOver4(ray, sphere);
    disc > 0.0 ==> sqrt(disc) >= 0.0 && sqrt(disc) * sqrt(disc) == disc
  }

  /** The parameter of a reported hit is at or before every root of the quadratic. */
  lemma HitIsNearestRoot(ray: Ray, sphere: Sphere, sqrt: real -> real, u: real)
    requires TrueRootOfDiscriminant(ray, sphere, sqrt)
    requires RayCastSphere(ray, sphere, sqrt).hit
    ensures var o := Sub(ray.origin, sphere.center);
            var d := ray.direction;
            var r := RayCastSphere(ray, sphere, sqrt);
            var c := Dot(o, o) - sphere.radius * sphere.radius;
            Dot(d, d) * r.t * r.t + 2.0 * Dot(o, d) * r.t + c == 0.0 &&
            (Dot(d, d) * u * u + 2.0 * Dot(o, d) * u + c == 0.0 ==> r.t <= u)
  {
    var o := Sub(ray.origin, sphere.center);
    var d := ray.direction;
    var disc := DiscriminantOver4(ray, sphere);
    HitIsSmallerRoot(ray, sphere, sqrt);
    QuadraticRootIsNearer(Dot(d, d), Dot(o, d), Dot(o, o) - sphere.radius * sphere.radius, disc, sqrt(disc),
                          RayCastSphere(ray, sphere, sqrt).t, u);
  }

  /** With a true square root, a reported hit lies on the sphere. */
  lemma RayCastSphereHitIsOnSphere(ray: Ray, sphere: Sphere, sqrt: real -> real)
    requires TrueRootOfDiscriminant(ray, sphere, sqrt)
    ensures var r := RayCastSphere(ray, sphere, sqrt);
            r.hit ==> Dot(Sub(SampleRay(ray, r.t), sphere.center), Sub(SampleRay(ray, r.t), sphere.center))
                      == sphere.radius * sphere.radius
  {
    var r := RayCastSphere(ray, sphere, sqrt);
    if r.hit {
      HitIsNearestRoot(ray, sphere, sqrt, r.t);
      SphereQuadratic(ray, sphere, r.t);
    }
  }

  /** With a true square root, no point of the ray on the sphere comes before a
      reported hit: the cast returns the nearer intersection. */
  lemma RayCastSphereHitIsNearest(ray: Ray, sphere: Sphere, sqrt: real -> real, u: real)
    requires TrueRootOfDiscriminant(ray, sphere, sqrt)
    ensures var r := RayCastSphere(ray, sphere, sqrt);
            r.hit && Dot(Sub(SampleRay(ray, u), sphere.center), Sub(SampleRay(ray, u), sphere.center))
                     == sphere.radius * sphere.radius
            ==> r.t <= u
  {
    if RayCastSphere(ray, sphere, sqrt).hit {
      HitIsNearestRoot(ray, sphere, sqrt, u);
      SphereQuadratic(ray, sphere, u);
    }
  }

  /** The algebra behind the nearer root: with `a > 0`, the root `(-halfB - s)/a` of
      `a*t^2 + 2*halfB*t + c` is at most any other root. */
  lemma QuadraticRootIsNearer(a: real, halfB: real, c: real, disc: real, s: real, t: real, u: real)
    requires a > 0.0 && disc == halfB * halfB - a * c && s >= 0.0 && s * s == disc
    requires a * t == -halfB - s
    ensures a * t * t + 2.0 * halfB * t + c == 0.0
    ensures a * u * u + 2.0 * halfB * u + c == 0.0 ==> t <= u
  {
    assert a * (a * t * t + 2.0 * halfB * t + c) == (a * t + halfB) * (a * t + halfB) - disc;
    assert (a * t + halfB) * (a * t + halfB) == s * s;
    if a * u * u + 2.0 * halfB * u + c == 0.0 {
      var w := a * u + halfB;
      assert a * (a * u * u + 2.0 * halfB * u + c) == w * w - disc;
      assert w * w == s * s;
      assert w >= -s by {
        if w < -s {
          assert (-w) * (-w) == w * w;
          SquareGrows(-w, s);
        }
      }
      assert a * (u - t) >= 0.0;
    }
  }

  lemma SquareGrows(x: real, y: real)
    requires x > y >= 0.0
    ensures x * x > y * y
  {
    assert x * (x - y) > 0.0;
    ProductNonNegative(y, x - y);
  }


  /** The nearest-hit scan's running state: a mesh index (-1 for none) and its `T`. */
  datatype Closest = Closest(index: int, t: real)

  /** The nearest-hit scan over the first `n` casts: it starts at (-1, `MAX_F32`) and
      takes a cast only when it hits strictly nearer. */
  function ScanCasts(casts: seq<Cast>, n: nat): (r: Closest)
    requires n <= |casts|
    ensures -1 <= r.index < n
  {
    if n == 0 then Closest(-1, MaxF32)
    else
      var previous := ScanCasts(casts, n - 1);
      if casts[n - 1].hit && casts[n - 1].t < previous.t then Closest(n - 1, casts[n - 1].t) else previous
  }

  /** The scan finds the first of the nearest hits below `MAX_F32`: -1 exactly when no
      cast hits nearer than `MAX_F32`, otherwise a hit no other hit beats, and strictly
      nearer than every hit before it, so the first of equal minima wins. */
  lemma {:induction false} ScanCastsFindsFirstNearest(casts: seq<Cast>, n: nat)
    requires n <= |casts|
    ensures var r := ScanCasts(casts, n);
            r.index == -1 ==> r.t == MaxF32 && forall i :: 0 <= i < n && casts[i].hit ==> MaxF32 <= casts[i].t
    ensures var r := ScanCasts(casts, n);
            r.index != -1 ==> casts[r.index].hit && casts[r.index].t == r.t && r.t < MaxF32
    ensures var r := ScanCasts(casts, n);
            forall i :: 0 <= i < n && casts[i].hit ==> r.t <= casts[i].t
    ensures var r := ScanCasts(casts, n);
            r.index != -1 ==> forall i :: 0 <= i < r.index && casts[i].hit ==> r.t < casts[i].t
  {
    if n > 0 {
      ScanCastsFindsFirstNearest(casts, n - 1);
    }
  }

  /** One cast per mesh, in mesh order. */
  function CastAll(ray: Ray, meshes: seq<Mesh>, sqrt: real -> real): seq<Cast>
  {
    seq(|meshes|, i requires 0 <= i < |meshes| => RayCastSphere(ray, meshes[i].sphere, sqrt))
  }

  /** The mesh the scan in `TraceRay` settles on. */
  function Nearest(ray: Ray, meshes: seq<Mesh>, sqrt: real -> real): Closest
  {
    ScanCasts(CastAll(ray, meshes, sqrt), |meshes|)
  }

  /** `World.Materials[Mesh->MaterialIndex]` is in bounds for every mesh. */
  predicate MaterialsResolve(meshes: seq<Mesh>, materials: seq<Material>)
  {
    forall i :: 0 <= i < |meshes| ==> meshes[i].materialIndex < |materials|
  }

  class World {
    var materialCount: nat
    const materials: array<Material>
    var meshCount: nat
    const meshes: array<Mesh>

    ghost predicate Valid()
      reads this, meshes
    {
      materials.Length == MaxMaterialCount && meshes.Length == MaxMeshCount &&
      materialCount <= MaxMaterialCount && meshCount <= MaxMeshCount &&
      forall i :: 0 <= i < meshes.Length ==> meshes[i].materialIndex < MaxMaterialCount
    }

    /** The materials pushed so far. */
    ghost function Materials(): seq<Material>
      reads this, materials
      requires materialCount <= materials.Length
    {
      materials[..materialCount]
    }

    /** The meshes pushed so far, the ones `TraceRay` scans. */
    ghost function Meshes(): seq<Mesh>
      reads this, meshes
      requires meshCount <= meshes.Length
    {
      meshes[..meshCount]
    }

    /** `world World = {}`: no materials or meshes, every slot zero. */
    constructor ()
      ensures Valid() && fresh(materials) && fresh(meshes)
      ensures materialCount == 0 && meshCount == 0
      ensures materials[..] == seq(MaxMaterialCount, _ => BlankMaterial)
      ensures meshes[..] == seq(MaxMeshCount, _ => BlankMesh)
    {
      materialCount := 0;
      meshCount := 0;
      materials := new Material[MaxMaterialCount](_ => BlankMaterial);
      meshes := new Mesh[MaxMeshCount](_ => BlankMesh);
    }

    /** `PushMaterial`: append to the fixed-capacity material table, returning the slot. */
    method PushMaterial(albedo: V3, roughness: real) returns (index: nat)
      requires Valid() && materialCount < MaxMaterialCount
      modifies this, materials
      ensures Valid()
      ensures index == old(materialCount) && materialCount == old(materialCount) + 1
      ensures materials[..] == old(materials[..])[index := Material(albedo, roughness)]
      ensures Materials() == old(Materials()) + [Material(albedo, roughness)]
      ensures meshCount == old(meshCount)
    {
      index := materialCount;
      materialCount := materialCount + 1;
      materials[index] := Material(albedo, roughness);
    }

    /** `PushSphere`: append to the fixed-capacity mesh table. The source returns a
        pointer to the new slot; the model returns its index. */
    method PushSphere(center: V3, radius: real, materialIndex: nat) returns (index: nat)
      requires Valid() && meshCount < MaxMeshCount && materialIndex < MaxMaterialCount
      modifies this, meshes
      ensures Valid()
      ensures index == old(meshCount) && meshCount == old(meshCount) + 1
      ensures meshes[..] == old(meshes[..])[index := Mesh(Sphere(center, radius), materialIndex)]
      ensures Meshes() == old(Meshes()) + [Mesh(Sphere(center, radius), materialIndex)]
      ensures materialCount == old(materialCount)
    {
      index := meshCount;
      meshCount := meshCount + 1;
      meshes[index] := Mesh(Sphere(center, radius), materialIndex);
    }

    /** The nearest-hit scan of `TraceRay` over the pushed meshes. */
    method ClosestHit(ray: Ray, sqrt: real -> real) returns (closest: Closest)
      requires Valid()
      ensures closest == Nearest(ray, Meshes(), sqrt)
    {
      ghost var casts := CastAll(ray, Meshes(), sqrt);
      var closestIndex: int, closestT: real := -1, MaxF32;
      var meshIndex: nat := 0;
      while meshIndex < meshCount
        invariant meshIndex <= meshCount
        invariant Closest(closestIndex, closestT) == ScanCasts(casts, meshIndex)
      {
        var cast := RayCastSphere(ray, meshes[meshIndex].sphere, sqrt);
        if cast.hit && cast.t < closestT {
          closestT := cast.t;
          closestIndex := meshIndex;
        }
        meshIndex := meshIndex + 1;
      }
      closest := Closest(closestIndex, closestT);
    }
  }
}
