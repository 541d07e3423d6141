/** What tracing one ray collects, defined by recursion on the bounces left: the sky
    colour, the scatter and absorption of one bounce, and the attenuated sum of the
    colours met (tracer_main.cpp). */
module Paths {
  import opened Vectors
  import opened Random
  import opened Scene

  /** `GetSkyColor`: a blend from white to (0.5, 0.7, 1.0) by the direction's height. */
  function SkyColor(ray: Ray): (r: V3)
    ensures -1.0 <= ray.direction.y <= 1.0 ==> InUnitCube(r)
  {
    var t := 0.5 * (ray.direction.y + 1.0);
    assert Lerp(1.0, 0.5, t) == (1.0 - t) * 1.0 + t * 0.5;
    assert Lerp(1.0, 0.7, t) == (1.0 - t) * 1.0 + t * 0.7;
    assert Lerp(1.0, 1.0, t) == (1.0 - t) * 1.0 + t * 1.0;
    V3((1.0 - t) * 1.0 + t * 0.5, (1.0 - t) * 1.0 + t * 0.7, (1.0 - t) * 1.0 + t * 1.0)
  }
  /** The point a bounce leaves from: the hit point lifted along the normal. */
  function Lift(info: IntersectionInfo): V3
  {
    Add(info.point, Scale(info.normal, SurfaceOffset))
  }

  /** The bounced direction: mirror the incoming direction about the normal bent by
      `roughness` times the jitter, and normalized (zero when the bent normal is zero). */
  function Scatter(incoming: V3, normal: V3, jitter: V3, roughness: real, sqrt: real -> real): V3
  {
    var bent := Add(normal, Scale(jitter, roughness));
    Reflect(incoming, Normalize(bent, Length(bent, sqrt), Zero))
  }

  /** The scale of the `k`-th contribution: halved once per completed bounce. */
  function Attenuation(k: nat): (r: real)
    ensures 0.0 < r <= 1.0
  {
    if k == 0 then 1.0 else 0.5 * Attenuation(k - 1)
  }

  /** What one pass of the bounce loop does: a miss ends the trace with the sky colour;
      a hit takes the material's albedo and draws a jitter of three values in
      [-0.5, 0.5], then ends when the reflection points into the surface (absorbed) or
      continues with a ray from the lifted hit point (scattered). */
  datatype Bounce =
    | Sky(color: V3)
    | Absorbed(albedo: V3, state: State)
    | Scattered(albedo: V3, next: Ray, state: State)

  /** One pass of the loop body: the scan, then the sky on a miss or the hit branch. */
  function Step(ray: Ray, meshes: seq<Mesh>, materials: seq<Material>, st: State, sqrt: real -> real): (r: Bounce)
    requires MaterialsResolve(meshes, materials)
  {
    var closest := Nearest(ray, meshes, sqrt);
    if closest.index == -1 then Sky(SkyColor(ray)) else Surface(ray, meshes, materials, closest, st, sqrt)
  }

  /** The hit branch of the loop body at the nearest mesh: the intersection, the
      material, the jitter (three draws), the reflection, and the absorption test. */
  function Surface(ray: Ray, meshes: seq<Mesh>, materials: seq<Material>, closest: Closest, st: State,
                   sqrt: real -> real): (r: Bounce)
    requires MaterialsResolve(meshes, materials) && 0 <= closest.index < |meshes|
    ensures !r.Sky?
  {
    var mesh := meshes[closest.index];
    var info := GetRaySphereIntersectionInfo(ray, mesh.sphere, closest.t, sqrt);
    var material := materials[mesh.materialIndex];
    var reflected := Scatter(ray.direction, info.normal, DrawV3(st, -0.5, 0.5), material.roughness, sqrt);
    var drawn := Next(Next(Next(st)));
    if Dot(reflected, info.normal) <= 0.0 then Absorbed(material.albedo, drawn)
    else Scattered(material.albedo, Ray(Lift(info), reflected), drawn)
  }

  /** The outcome of one pass: the sky exactly when the scan finds no mesh; otherwise
      the nearest mesh's albedo, three draws, and, when the ray goes on, a ray that
      leaves from the lifted hit point on the side the facing normal points to. */
  lemma StepOutcome(ray: Ray, meshes: seq<Mesh>, materials: seq<Material>, st: State, sqrt: real -> real)
    requires MaterialsResolve(meshes, materials)
    ensures var r := Step(ray, meshes, materials, st, sqrt);
            r.Sky? <==> Nearest(ray, meshes, sqrt).index == -1
    ensures var r := Step(ray, meshes, materials, st, sqrt);
            r.Sky? ==> r.color == SkyColor(ray)
    ensures var r, closest := Step(ray, meshes, materials, st, sqrt), Nearest(ray, meshes, sqrt);
            !r.Sky? ==> r.albedo == materials[meshes[closest.index].materialIndex].albedo && r.state == Next(Next(Next(st)))
    ensures var r, closest := Step(ray, meshes, materials, st, sqrt), Nearest(ray, meshes, sqrt);
            r.Scattered? ==>
              var info := GetRaySphereIntersectionInfo(ray, meshes[closest.index].sphere, closest.t, sqrt);
              r.next.origin == Lift(info) && Dot(r.next.direction, info.normal) > 0.0
  {
  }

  /** What a traced ray collects: the colour met on each bounce, unscaled, and the
      random state after the draws it made. */
  datatype Trace = Trace(contributions: seq<V3>, state: State)

  /** The bounce loop of `TraceRay` as a recursion on the bounces left: the loop test
      `BounceCount-- > 0`, then one pass of the body. */
  function Bounces(ray: Ray, meshes: seq<Mesh>, materials: seq<Material>, remaining: int,
                   st: State, sqrt: real -> real): (r: Trace)
    requires MaterialsResolve(meshes, materials)
    ensures remaining <= 0 ==> r == Trace([], st)
    ensures remaining > 0 ==> 1 <= |r.contributions| <= remaining
    decreases remaining, 2
  {
    if remaining <= 0 then Trace([], st) else Pass(ray, meshes, materials, remaining, st, sqrt)
  }

  /** One pass of the loop body: a miss ends the trace with the sky colour. */
  function Pass(ray: Ray, meshes: seq<Mesh>, materials: seq<Material>, remaining: int,
                st: State, sqrt: real -> real): (r: Trace)
    requires MaterialsResolve(meshes, materials) && remaining > 0
    ensures 1 <= |r.contributions| <= remaining
    decreases remaining, 1
  {
    var closest := Nearest(ray, meshes, sqrt);
    if closest.index == -1 then Trace([SkyColor(ray)], st)
    else Hit(ray, meshes, materials, closest, remaining, st, sqrt)
  }

  /** The hit branch of a pass and, when the ray scatters, the bounces after it. */
  function Hit(ray: Ray, meshes: seq<Mesh>, materials: seq<Material>, closest: Closest, remaining: int,
               st: State, sqrt: real -> real): (r: Trace)
    requires MaterialsResolve(meshes, materials) && 0 <= closest.index < |meshes| && remaining > 0
    ensures 1 <= |r.contributions| <= remaining
    decreases remaining, 0
  {
    match Surface(ray, meshes, materials, closest, st, sqrt)
    case Absorbed(albedo, drawn) => Trace([albedo], drawn)
    case Scattered(albedo, next, drawn) =>
      var rest := Bounces(next, meshes, materials, remaining - 1, drawn, sqrt);
      Trace([albedo] + rest.contributions, rest.state)
  }

  /** The first bounce: a miss yields only the sky colour and draws nothing; a hit
      yields the albedo of the nearest mesh's material. */
  lemma BouncesFirstStep(ray: Ray, meshes: seq<Mesh>, materials: seq<Material>, remaining: int,
                         st: State, sqrt: real -> real)
    requires MaterialsResolve(meshes, materials) && remaining > 0
    ensures var closest := Nearest(ray, meshes, sqrt);
            closest.index == -1 ==> Bounces(ray, meshes, materials, remaining, st, sqrt) == Trace([SkyColor(ray)], st)
    ensures var closest := Nearest(ray, meshes, sqrt);
            closest.index != -1 ==>
              Bounces(ray, meshes, materials, remaining, st, sqrt).contributions[0]
              == materials[meshes[closest.index].materialIndex].albedo
  {
    UnfoldToHit(ray, meshes, materials, remaining, st, sqrt);
  }

  /** `Bounces` with bounces left is a pass, and a pass that finds a mesh is the hit branch. */
  lemma UnfoldToHit(ray: Ray, meshes: seq<Mesh>, materials: seq<Material>, remaining: int,
                    st: State, sqrt: real -> real)
    requires MaterialsResolve(meshes, materials) && remaining > 0
    ensures var closest := Nearest(ray, meshes, sqrt);
            closest.index == -1 ==> Bounces(ray, meshes, materials, remaining, st, sqrt) == Trace([SkyColor(ray)], st)
    ensures var closest := Nearest(ray, meshes, sqrt);
            closest.index != -1 ==>
              Bounces(ray, meshes, materials, remaining, st, sqrt) == Hit(ray, meshes, materials, closest, remaining, st, sqrt)
  {
    assert Bounces(ray, meshes, materials, remaining, st, sqrt) == Pass(ray, meshes, materials, remaining, st, sqrt);
  }

  /** `FinalColor`: contribution `k` scaled by `0.5^k`, summed in bounce order. */
  function WeightedSum(contributions: seq<V3>): V3
    decreases |contributions|, 1
  {
    if |contributions| == 0 then Zero else WeightedSumLast(contributions)
  }

  function WeightedSumLast(contributions: seq<V3>): V3
    requires |contributions| > 0
    decreases |contributions|, 0
  {
    var last := |contributions| - 1;
    Add(WeightedSum(contributions[..last]), Scale(contributions[last], Attenuation(last)))
  }

  /** Adding one more contribution adds it at the next attenuation. */
  lemma WeightedSumAppend(contributions: seq<V3>, color: V3)
    ensures WeightedSum(contributions + [color]) == Add(WeightedSum(contributions), Scale(color, Attenuation(|contributions|)))
  {
    assert (contributions + [color])[..|contributions|] == contributions;
  }

  lemma ConcatAssociates(a: seq<V3>, b: seq<V3>, c: seq<V3>)
    ensures a + (b + c) == (a + b) + c
  {
  }

  /** Colours in the unit cube sum to at most `1 + 1/2 + ... = 2 - 2 * 0.5^n` per channel. */
  lemma {:induction false} WeightedSumBound(contributions: seq<V3>)
    requires forall i :: 0 <= i < |contributions| ==> InUnitCube(contributions[i])
    ensures var s, bound := WeightedSum(contributions), 2.0 - 2.0 * Attenuation(|contributions|);
            0.0 <= s.x <= bound && 0.0 <= s.y <= bound && 0.0 <= s.z <= bound
  {
    if |contributions| > 0 {
      var last := |contributions| - 1;
      var prefix := contributions[..last];
      var c, a := contributions[last], Attenuation(last);
      assert forall i :: 0 <= i < |prefix| ==> prefix[i] == contributions[i];
      WeightedSumBound(prefix);
      var p := WeightedSum(prefix);
      assert WeightedSum(contributions) == Add(p, Scale(c, a));
      assert Attenuation(|contributions|) == 0.5 * a;
      StepBound(p, c, a);
    }
  }

  /** One step of `WeightedSumBound`: add a unit-cube colour scaled by `a` to a sum
      within `2 - 2a`. */
  lemma StepBound(p: V3, c: V3, a: real)
    requires 0.0 < a && InUnitCube(c)
    requires 0.0 <= p.x <= 2.0 - 2.0 * a && 0.0 <= p.y <= 2.0 - 2.0 * a && 0.0 <= p.z <= 2.0 - 2.0 * a
    ensures var s, bound := Add(p, Scale(c, a)), 2.0 - 2.0 * (0.5 * a);
            0.0 <= s.x <= bound && 0.0 <= s.y <= bound && 0.0 <= s.z <= bound
  {
    ChannelBound(p.x, c.x, a);
    ChannelBound(p.y, c.y, a);
    ChannelBound(p.z, c.z, a);
  }

  /** One channel of one step of `WeightedSumBound`. */
  lemma ChannelBound(sum: real, channel: real, scale: real)
    requires 0.0 < scale && 0.0 <= sum <= 2.0 - 2.0 * scale && 0.0 <= channel <= 1.0
    ensures 0.0 <= sum + channel * scale <= 2.0 - 2.0 * (0.5 * scale)
  {
    WeightedSpan(scale, channel);
    assert channel * scale == scale * channel;
    assert 2.0 * (0.5 * scale) == scale;
  }


  /** `Bounces` with bounces left, by the kind of the first bounce. */
  lemma BouncesUnfold(ray: Ray, meshes: seq<Mesh>, materials: seq<Material>, remaining: int,
                      st: State, sqrt: real -> real)
    requires MaterialsResolve(meshes, materials) && remaining > 0
    ensures var step := Step(ray, meshes, materials, st, sqrt);
            step.Sky? ==> Bounces(ray, meshes, materials, remaining, st, sqrt) == Trace([step.color], st)
    ensures var step := Step(ray, meshes, materials, st, sqrt);
            step.Absorbed? ==> Bounces(ray, meshes, materials, remaining, st, sqrt) == Trace([step.albedo], step.state)
    ensures var step := Step(ray, meshes, materials, st, sqrt);
            step.Scattered? ==>
              var rest := Bounces(step.next, meshes, materials, remaining - 1, step.state, sqrt);
              Bounces(ray, meshes, materials, remaining, st, sqrt) == Trace([step.albedo] + rest.contributions, rest.state)
  {
    UnfoldToHit(ray, meshes, materials, remaining, st, sqrt);
  }
}
