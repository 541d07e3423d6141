/** The `trace_rays_job` and `TraceRays`, which traces one range of pixels into the
    accumulation and display buffers (tracer_jobs.h, tracer_jobs.cpp). */
module Jobs {
  import opened Vectors
  import opened Random
  import opened Scene
  import opened Paths
  import opened Tracing
  import opened FrameBuffers
  import opened Cameras
  import opened Accumulation

  /** A `trace_rays_job`. The world, camera, frame buffers and random series it points
      to are passed to `TraceRays` alongside it. */
  datatype Job = Job(rayBounceCount: nat, frameCount: nat, startPixelIndex: nat, endPixelIndex: nat)

  /** A zero-initialised job slot. */
  const BlankJob: Job := Job(0, 0, 0, 0)

  /** Whether the job's pixel range `[Start, End)` holds pixel `i`. */
  predicate Covers(job: Job, i: int)
  {
    job.startPixelIndex <= i < job.endPixelIndex
  }

  /** The number of pixels a job visits: none when `Start >= End`. */
  function Span(job: Job): (r: nat)
    ensures forall i :: Covers(job, i) <==> job.startPixelIndex <= i < job.startPixelIndex + r
  {
    if job.startPixelIndex < job.endPixelIndex then job.endPixelIndex - job.startPixelIndex else 0
  }

  /** What a range of pixels draws: one traced colour per pixel, and the random state
      after all of them. */
  datatype Samples = Samples(colors: seq<V3>, state: State)

  /** The colours `TraceRay` returns for the `n` rays from `start` on, traced in pixel
      order with one random series threaded through them. */
  function Sweep(rays: seq<Ray>, start: nat, n: nat, meshes: seq<Mesh>, materials: seq<Material>,
                 bounceCount: int, st: State, sqrt: real -> real): (r: Samples)
    requires MaterialsResolve(meshes, materials) && (n > 0 ==> start + n <= |rays|)
    ensures |r.colors| == n
    ensures n == 0 ==> r.state == st
    decreases n, 1
  {
    if n == 0 then Samples([], st) else SweepLast(rays, start, n, meshes, materials, bounceCount, st, sqrt)
  }

  /** The sweep of `n` rays: the sweep of the first `n - 1`, then the last ray traced
      from the state they left. */
  function SweepLast(rays: seq<Ray>, start: nat, n: nat, meshes: seq<Mesh>, materials: seq<Material>,
                     bounceCount: int, st: State, sqrt: real -> real): (r: Samples)
    requires MaterialsResolve(meshes, materials) && 0 < n && start + n <= |rays|
    ensures |r.colors| == n
    decreases n, 0
  {
    var previous := Sweep(rays, start, n - 1, meshes, materials, bounceCount, st, sqrt);
    var trace := Bounces(rays[start + n - 1], meshes, materials, bounceCount, previous.state, sqrt);
    Samples(previous.colors + [WeightedSum(trace.contributions)], trace.state)
  }

  /** What the frame buffers and a random series hold, as values. */
  datatype Canvas = Canvas(acc: seq<V3>, display: seq<V3>, state: State)

  /** Whether `TraceRays` may run `job` over `rayCount` camera rays and frame buffers of
      `pixelCount` pixels: every pixel it visits has a ray and a pixel in each buffer,
      and the average divides by at least one frame. */
  predicate Runnable(job: Job, rayCount: nat, pixelCount: nat)
  {
    job.frameCount >= 1 && job.endPixelIndex <= rayCount && job.endPixelIndex <= pixelCount
  }

  /** Whether every job of `jobs` is runnable. */
  predicate AllRunnable(jobs: seq<Job>, rayCount: nat, pixelCount: nat)
  {
    forall i :: 0 <= i < |jobs| ==> Runnable(jobs[i], rayCount, pixelCount)
  }

  /** The first of a run of runnable jobs is runnable, and so are the rest. */
  lemma AllRunnableSplit(jobs: seq<Job>, rayCount: nat, pixelCount: nat)
    requires |jobs| > 0 && AllRunnable(jobs, rayCount, pixelCount)
    ensures Runnable(jobs[0], rayCount, pixelCount) && AllRunnable(jobs[1..], rayCount, pixelCount)
  {
    assert forall i :: 0 <= i < |jobs| - 1 ==> jobs[1..][i] == jobs[i + 1];
  }

  /** The canvas once `TraceRays` has traced the first `n` pixels of `job`'s range,
      one at a time in pixel order. */
  ghost function Traced(job: Job, n: nat, rays: seq<Ray>, meshes: seq<Mesh>, materials: seq<Material>,
                        sqrt: real -> real, canvas: Canvas): (r: Canvas)
    requires MaterialsResolve(meshes, materials) && |canvas.acc| == |canvas.display| && job.frameCount >= 1
    requires n > 0 ==> job.startPixelIndex + n <= |rays| && job.startPixelIndex + n <= |canvas.acc|
    ensures |r.acc| == |r.display| == |canvas.acc|
    decreases n, 1
  {
    if n == 0 then canvas else TracedLast(job, n, rays, meshes, materials, sqrt, canvas)
  }

  /** The `n`-th pixel of the range traced on top of the first `n - 1`: its ray is
      traced from the random state they left, its colour added to the accumulated
      value, and the resolved average shown. */
  ghost function TracedLast(job: Job, n: nat, rays: seq<Ray>, meshes: seq<Mesh>, materials: seq<Material>,
                            sqrt: real -> real, canvas: Canvas): (r: Canvas)
    requires MaterialsResolve(meshes, materials) && |canvas.acc| == |canvas.display| && job.frameCount >= 1
    requires 0 < n && job.startPixelIndex + n <= |rays| && job.startPixelIndex + n <= |canvas.acc|
    ensures |r.acc| == |r.display| == |canvas.acc|
    decreases n, 0
  {
    var before := Traced(job, n - 1, rays, meshes, materials, sqrt, canvas);
    var i := job.startPixelIndex + n - 1;
    var trace := Bounces(rays[i], meshes, materials, job.rayBounceCount, before.state, sqrt);
    var acc := before.acc[i := Add(before.acc[i], WeightedSum(trace.contributions))];
    Canvas(acc, before.display[i := Resolve(acc[i], job.frameCount)], trace.state)
  }

  /** The canvas after `TraceRays` ran `job` on `canvas`. */
  ghost function Run(job: Job, rays: seq<Ray>, meshes: seq<Mesh>, materials: seq<Material>, sqrt: real -> real,
                     canvas: Canvas): (r: Canvas)
    requires MaterialsResolve(meshes, materials)
    requires |canvas.acc| == |canvas.display| && Runnable(job, |rays|, |canvas.acc|)
    ensures |r.acc| == |r.display| == |canvas.acc|
  {
    Traced(job, Span(job), rays, meshes, materials, sqrt, canvas)
  }

  /** Tracing pixel by pixel draws what the sweep of the range describes: the random
      state threaded through every ray, each colour added to its own pixel and each
      pixel of the range resolved. */
  lemma {:induction false} TracedIsSwept(job: Job, n: nat, rays: seq<Ray>, meshes: seq<Mesh>,
                                         materials: seq<Material>, sqrt: real -> real, canvas: Canvas)
    requires MaterialsResolve(meshes, materials) && |canvas.acc| == |canvas.display| && job.frameCount >= 1
    requires n > 0 ==> job.startPixelIndex + n <= |rays| && job.startPixelIndex + n <= |canvas.acc|
    ensures var sweep := Sweep(rays, job.startPixelIndex, n, meshes, materials, job.rayBounceCount,
                               canvas.state, sqrt);
            var r := Traced(job, n, rays, meshes, materials, sqrt, canvas);
            && r.state == sweep.state
            && Written(r.acc, r.display, canvas.acc, canvas.display, job.startPixelIndex, sweep.colors, job.frameCount)
    decreases n
  {
    if n > 0 {
      var start := job.startPixelIndex;
      TracedIsSwept(job, n - 1, rays, meshes, materials, sqrt, canvas);
      var before := Traced(job, n - 1, rays, meshes, materials, sqrt, canvas);
      var sweep := Sweep(rays, start, n - 1, meshes, materials, job.rayBounceCount, canvas.state, sqrt);
      var trace := Bounces(rays[start + n - 1], meshes, materials, job.rayBounceCount, before.state, sqrt);
      var color := WeightedSum(trace.contributions);
      assert Sweep(rays, start, n, meshes, materials, job.rayBounceCount, canvas.state, sqrt)
             == Samples(sweep.colors + [color], trace.state);
      Advance(before.acc, before.display, canvas.acc, canvas.display, start, sweep.colors, color, job.frameCount);
    }
  }

  /** The colour `TraceRays` traces for pixel `i` of the job's range, starting from
      random state `st`. */
  ghost function JobSample(job: Job, rays: seq<Ray>, meshes: seq<Mesh>, materials: seq<Material>, sqrt: real -> real,
                           st: State, i: nat): V3
    requires MaterialsResolve(meshes, materials) && job.endPixelIndex <= |rays| && Covers(job, i)
  {
    Sweep(rays, job.startPixelIndex, Span(job), meshes, materials, job.rayBounceCount, st, sqrt)
      .colors[i - job.startPixelIndex]
  }

  /** The state `TraceRays` leaves the series of `job` in, starting from `st`. */
  ghost function JobState(job: Job, rays: seq<Ray>, meshes: seq<Mesh>, materials: seq<Material>, sqrt: real -> real,
                          st: State): State
    requires MaterialsResolve(meshes, materials) && job.endPixelIndex <= |rays|
  {
    Sweep(rays, job.startPixelIndex, Span(job), meshes, materials, job.rayBounceCount, st, sqrt).state
  }

  /** The series a job was run with ends where the sweep of its range does, whatever
      the buffers held. */
  lemma RunAdvancesSeries(job: Job, rays: seq<Ray>, meshes: seq<Mesh>, materials: seq<Material>,
                          sqrt: real -> real, canvas: Canvas)
    requires MaterialsResolve(meshes, materials)
    requires |canvas.acc| == |canvas.display| && Runnable(job, |rays|, |canvas.acc|)
    ensures Run(job, rays, meshes, materials, sqrt, canvas).state
            == JobState(job, rays, meshes, materials, sqrt, canvas.state)
  {
    TracedIsSwept(job, Span(job), rays, meshes, materials, sqrt, canvas);
  }

  /** A job adds its traced colour to each pixel of its range and shows that pixel's
      resolved average; every pixel outside the range is left as it was. */
  lemma RunWritesItsRange(job: Job, rays: seq<Ray>, meshes: seq<Mesh>, materials: seq<Material>,
                          sqrt: real -> real, canvas: Canvas, i: nat)
    requires MaterialsResolve(meshes, materials)
    requires |canvas.acc| == |canvas.display| && Runnable(job, |rays|, |canvas.acc|) && i < |canvas.acc|
    ensures var r := Run(job, rays, meshes, materials, sqrt, canvas);
            && (Covers(job, i) ==> r.display[i] == Resolve(r.acc[i], job.frameCount))
            && (Covers(job, i) ==>
                  r.acc[i] == Add(canvas.acc[i], JobSample(job, rays, meshes, materials, sqrt, canvas.state, i)))
            && (!Covers(job, i) ==> r.acc[i] == canvas.acc[i] && r.display[i] == canvas.display[i])
  {
    var sweep := Sweep(rays, job.startPixelIndex, Span(job), meshes, materials, job.rayBounceCount,
                       canvas.state, sqrt);
    TracedIsSwept(job, Span(job), rays, meshes, materials, sqrt, canvas);
    var acc := Accumulated(canvas.acc, job.startPixelIndex, sweep.colors);
    AccumulatedAt(canvas.acc, job.startPixelIndex, sweep.colors, i);
    DisplayedAt(canvas.display, acc, job.startPixelIndex, Span(job), job.frameCount, i);
  }

  /** The canvas after running `jobs` one after another, all on the same random series. */
  ghost function RunAll(jobs: seq<Job>, rays: seq<Ray>, meshes: seq<Mesh>, materials: seq<Material>,
                        sqrt: real -> real, canvas: Canvas): (r: Canvas)
    requires MaterialsResolve(meshes, materials) && |canvas.acc| == |canvas.display|
    requires AllRunnable(jobs, |rays|, |canvas.acc|)
    ensures |r.acc| == |r.display| == |canvas.acc|
    ensures jobs == [] ==> r == canvas
    decreases |jobs|
  {
    if jobs == [] then canvas
    else
      var last := |jobs| - 1;
      Run(jobs[last], rays, meshes, materials, sqrt, RunAll(jobs[..last], rays, meshes, materials, sqrt, canvas))
  }

  /** Running one more job runs it on what the earlier ones left. */
  lemma RunAllAppend(jobs: seq<Job>, job: Job, rays: seq<Ray>, meshes: seq<Mesh>, materials: seq<Material>,
                     sqrt: real -> real, canvas: Canvas)
    requires MaterialsResolve(meshes, materials) && |canvas.acc| == |canvas.display|
    requires AllRunnable(jobs, |rays|, |canvas.acc|) && Runnable(job, |rays|, |canvas.acc|)
    ensures RunAll(jobs + [job], rays, meshes, materials, sqrt, canvas)
            == Run(job, rays, meshes, materials, sqrt, RunAll(jobs, rays, meshes, materials, sqrt, canvas))
    ensures AllRunnable(jobs + [job], |rays|, |canvas.acc|)
  {
    assert (jobs + [job])[..|jobs|] == jobs;
  }

  /** The body of the pixel loop of `TraceRays`: trace the pixel's ray, add the colour
      to its accumulated value and resolve it to the display buffer, which takes the
      loop from one pixel to the next. */
  method TracePixel(job: Job, pixelIndex: nat, world: World, camera: Camera, accPixels: array<V3>,
                    displayPixels: array<V3>, series: RandomSeries, sqrt: real -> real,
                    ghost meshes: seq<Mesh>, ghost materials: seq<Material>, ghost rays: seq<Ray>,
                    ghost canvas0: Canvas)
    requires world.Valid() && meshes == world.Meshes() && materials == world.materials[..]
    requires rays == camera.rays[..] && job.frameCount >= 1
    requires job.startPixelIndex <= pixelIndex < camera.rays.Length && pixelIndex < accPixels.Length
    requires |canvas0.acc| == |canvas0.display| == accPixels.Length == displayPixels.Length
    requires accPixels != displayPixels && MaterialsResolve(meshes, materials)
    requires Canvas(accPixels[..], displayPixels[..], series.shuffleTable)
             == Traced(job, pixelIndex - job.startPixelIndex, rays, meshes, materials, sqrt, canvas0)
    modifies accPixels, displayPixels, series
    ensures Canvas(accPixels[..], displayPixels[..], series.shuffleTable)
            == Traced(job, pixelIndex + 1 - job.startPixelIndex, rays, meshes, materials, sqrt, canvas0)
  {
    var ray := camera.rays[pixelIndex];
    var color := TraceRay(ray, world, job.rayBounceCount, series, sqrt);
    accPixels[pixelIndex] := Add(accPixels[pixelIndex], color);
    displayPixels[pixelIndex] := Resolve(accPixels[pixelIndex], job.frameCount);
  }

  /** `TraceRays`: trace the ray of every pixel in `[Start, End)` in order, add its
      colour to the accumulation buffer and write the resolved average to the display
      buffer. */
  method TraceRays(job: Job, world: World, camera: Camera, accumulation: FrameBuffer, display: FrameBuffer,
                   series: RandomSeries, sqrt: real -> real)
    requires world.Valid() && accumulation.pixels.Length == display.pixels.Length
    requires Runnable(job, camera.rays.Length, accumulation.pixels.Length)
    requires accumulation.pixels != display.pixels
    modifies accumulation.pixels, display.pixels, series
    ensures MaterialsResolve(world.Meshes(), world.materials[..])
    ensures Canvas(accumulation.pixels[..], display.pixels[..], series.shuffleTable)
            == Run(job, camera.rays[..], world.Meshes(), world.materials[..], sqrt,
                   Canvas(old(accumulation.pixels[..]), old(display.pixels[..]), old(series.shuffleTable)))
  {
    ghost var meshes, materials, rays := world.Meshes(), world.materials[..], camera.rays[..];
    assert MaterialsResolve(meshes, materials);
    var accPixels, displayPixels := accumulation.pixels, display.pixels;
    ghost var canvas0 := Canvas(accPixels[..], displayPixels[..], series.shuffleTable);
    var pixelIndex := job.startPixelIndex;
    while pixelIndex < job.endPixelIndex
      invariant job.startPixelIndex <= pixelIndex <= job.startPixelIndex + Span(job)
      invariant meshes == world.Meshes() && materials == world.materials[..] && rays == camera.rays[..]
      invariant Canvas(accPixels[..], displayPixels[..], series.shuffleTable)
                == Traced(job, pixelIndex - job.startPixelIndex, rays, meshes, materials, sqrt, canvas0)
      decreases job.endPixelIndex - pixelIndex
    {
      TracePixel(job, pixelIndex, world, camera, accPixels, displayPixels, series, sqrt, meshes, materials, rays,
                 canvas0);
      pixelIndex := pixelIndex + 1;
    }
  }
}
