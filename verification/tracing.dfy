/** The bounce loop of `TraceRay` (tracer_main.cpp), proved against `Bounces`. */
module Tracing {
  import opened Vectors
  import opened Random
  import opened Scene
  import opened Paths

  /** One pass of the bounce loop of `TraceRay`: the nearest-hit scan, then either the
      sky colour or the material, the jitter draw and the reflected ray. The pass is the
      first step of `Bounces` with `remaining` bounces left. */
  method BounceOnce(current: Ray, world: World, ghost meshes: seq<Mesh>, ghost materials: seq<Material>,
                    remaining: int, series: RandomSeries, sqrt: real -> real) returns (bounce: Bounce)
    requires world.Valid() && meshes == world.Meshes() && materials == world.materials[..]
    requires remaining > 0
    modifies series
    ensures MaterialsResolve(meshes, materials)
    ensures bounce.Sky? ==>
              series.shuffleTable == old(series.shuffleTable) &&
              Bounces(current, meshes, materials, remaining, old(series.shuffleTable), sqrt)
                == Trace([bounce.color], series.shuffleTable)
    ensures bounce.Absorbed? ==>
              series.shuffleTable == bounce.state &&
              Bounces(current, meshes, materials, remaining, old(series.shuffleTable), sqrt)
                == Trace([bounce.albedo], series.shuffleTable)
    ensures bounce.Scattered? ==>
              series.shuffleTable == bounce.state &&
              var rest := Bounces(bounce.next, meshes, materials, remaining - 1, bounce.state, sqrt);
              Bounces(current, meshes, materials, remaining, old(series.shuffleTable), sqrt)
                == Trace([bounce.albedo] + rest.contributions, rest.state)
  {
    assert MaterialsResolve(meshes, materials);
    ghost var before := series.shuffleTable;
    var closest := world.ClosestHit(current, sqrt);
    if closest.index != -1 {
      var mesh := world.meshes[closest.index];
      assert mesh == meshes[closest.index];
      var info := GetRaySphereIntersectionInfo(current, mesh.sphere, closest.t, sqrt);
      var material := world.materials[mesh.materialIndex];
      var jitter := series.RandomV3(-0.5, 0.5);
      var reflected := Scatter(current.direction, info.normal, jitter, material.roughness, sqrt);
      if Dot(reflected, info.normal) <= 0.0 {
        bounce := Absorbed(material.albedo, series.shuffleTable);
      } else {
        bounce := Scattered(material.albedo, Ray(Lift(info), reflected), series.shuffleTable);
      }
    } else {
      bounce := Sky(SkyColor(current));
    }
    assert meshes == world.Meshes() && materials == world.materials[..];
    assert bounce == Step(current, meshes, materials, before, sqrt);
    BouncesUnfold(current, meshes, materials, remaining, before, sqrt);
  }

  /** The colour accumulated so far is the attenuated sum of the contributions so far. */
  ghost predicate Collected(finalColor: V3, done: seq<V3>)
  {
    finalColor == WeightedSum(done)
  }

  /** One more contribution, scaled by the running `scalar`, keeps `Collected`. */
  lemma Accumulate(finalColor: V3, done: seq<V3>, color: V3, scalar: real)
    requires Collected(finalColor, done) && scalar == Attenuation(|done|)
    ensures Collected(Add(finalColor, Scale(color, scalar)), done + [color])
    ensures scalar * 0.5 == Attenuation(|done + [color]|)
  {
    WeightedSumAppend(done, color);
  }

  /** `rest` is what the bounces still to come collect. */
  ghost predicate Remains(rest: Trace, current: Ray, meshes: seq<Mesh>, materials: seq<Material>, remaining: int,
                          st: State, sqrt: real -> real)
    requires MaterialsResolve(meshes, materials)
  {
    rest == Bounces(current, meshes, materials, remaining, st, sqrt)
  }

  /** `TraceRay`: follow `ray` for at most `bounceCount` bounces, drawing jitter from
      `series`; the colour is the attenuated sum of what the bounces met. */
  method TraceRay(ray: Ray, world: World, bounceCount: int, series: RandomSeries, sqrt: real -> real)
    returns (finalColor: V3)
    requires world.Valid()
    modifies series
    ensures MaterialsResolve(world.Meshes(), world.materials[..])
    ensures finalColor == WeightedSum(Bounces(ray, world.Meshes(), world.materials[..], bounceCount, old(series.shuffleTable), sqrt).contributions)
    ensures series.shuffleTable == Bounces(ray, world.Meshes(), world.materials[..], bounceCount, old(series.shuffleTable), sqrt).state
  {
    ghost var meshes, materials := world.Meshes(), world.materials[..];
    assert MaterialsResolve(meshes, materials);
    ghost var whole := Bounces(ray, meshes, materials, bounceCount, series.shuffleTable, sqrt);
    ghost var done: seq<V3> := [];
    ghost var rest := whole;
    assert whole.contributions == done + rest.contributions;
    finalColor := Zero;
    var scalar := 1.0;
    var current := ray;
    var remaining := bounceCount;
    while remaining > 0
      invariant meshes == world.Meshes() && materials == world.materials[..]
      invariant scalar == Attenuation(|done|)
      invariant Collected(finalColor, done)
      invariant Remains(rest, current, meshes, materials, remaining, series.shuffleTable, sqrt)
      invariant whole.contributions == done + rest.contributions && whole.state == rest.state
      decreases remaining
    {
      var bounce := BounceOnce(current, world, meshes, materials, remaining, series, sqrt);
      remaining := remaining - 1;
      var color := if bounce.Sky? then bounce.color else bounce.albedo;
      Accumulate(finalColor, done, color, scalar);
      finalColor := Add(finalColor, Scale(color, scalar));
      if !bounce.Scattered? {
        assert rest == Trace([color], series.shuffleTable);
        done := done + [color];
        break;
      }
      ghost var next := Bounces(bounce.next, meshes, materials, remaining, bounce.state, sqrt);
      ConcatAssociates(done, [color], next.contributions);
      current := bounce.next;
      done, rest := done + [color], next;
      scalar := scalar * 0.5;
    }
    assert whole.contributions == done && whole.state == series.shuffleTable;
    assert meshes == world.Meshes() && materials == world.materials[..];
    assert finalColor == WeightedSum(whole.contributions);
  }
}
