/** The frame loop of `main` (tracer_main.cpp): the split of the pixels into one range
    per thread, the job queueing, the inline range of the main thread, the wait for the
    workers, and the FrameCount / accumulation-clear rules around a resize. */
module Frame {
  import opened Vectors
  import opened Random
  import opened Scene
  import opened FrameBuffers
  import opened Cameras
  import opened Accumulation
  import opened Jobs
  import opened Queues

  /** `PixelCountPerThread`: the pixel count divided by the thread count, rounded down. */
  function PerThread(pixelCount: nat, threadCount: nat): (r: nat)
    requires threadCount >= 1
    ensures r * threadCount <= pixelCount < (r + 1) * threadCount
  {
    pixelCount / threadCount
  }

  /** The job thread `k` runs in a frame. A worker `k < ThreadCount - 1` gets
      `[k * PerThread, (k + 1) * PerThread)`; the main thread gets the last range, which
      runs on to `PixelCount` and so also takes the remainder. */
  function FrameJob(k: nat, pixelCount: nat, threadCount: nat, rayBounceCount: nat, frameCount: nat): (r: Job)
    requires k < threadCount
    ensures r.rayBounceCount == rayBounceCount && r.frameCount == frameCount
    ensures r.endPixelIndex <= pixelCount
  {
    var perThread := PerThread(pixelCount, threadCount);
    MulMonotone(perThread, k + 1, threadCount);
    if k < threadCount - 1 then Job(rayBounceCount, frameCount, perThread * k, perThread * (k + 1))
    else Job(rayBounceCount, frameCount, (threadCount - 1) * perThread, pixelCount)
  }

  lemma MulMonotone(p: nat, a: nat, b: nat)
    requires a <= b
    ensures p * a <= p * b
  {
    assert p * b == p * a + p * (b - a);
  }

  /** `p * k <= i < p * (k + 1)` holds for exactly one `k`: the quotient `i / p`. */
  lemma QuotientBetween(i: nat, p: nat, k: nat)
    requires p > 0
    ensures p * k <= i < p * (k + 1) <==> i / p == k
  {
    var q := i / p;
    assert i == p * q + i % p;
    if q < k {
      MulMonotone(p, q + 1, k);
    } else if q > k {
      MulMonotone(p, k + 1, q);
    }
  }

  /** The thread whose range holds pixel `i`: the quotient by `PerThread`, or the main
      thread for a pixel past the last worker range. */
  function Owner(i: nat, pixelCount: nat, threadCount: nat): (r: nat)
    requires threadCount >= 1
    ensures r < threadCount
  {
    var perThread := PerThread(pixelCount, threadCount);
    if perThread == 0 || i / perThread >= threadCount - 1 then threadCount - 1 else i / perThread
  }

  /** The ranges of one frame are disjoint and cover exactly `[0, PixelCount)`: a pixel
      lies in the range of thread `k` if and only if it is a pixel of the frame and `k`
      is its owner. */
  lemma PartitionOwns(i: nat, k: nat, pixelCount: nat, threadCount: nat, rayBounceCount: nat, frameCount: nat)
    requires k < threadCount
    ensures Covers(FrameJob(k, pixelCount, threadCount, rayBounceCount, frameCount), i)
            <==> i < pixelCount && k == Owner(i, pixelCount, threadCount)
  {
    var perThread := PerThread(pixelCount, threadCount);
    if perThread > 0 {
      QuotientBetween(i, perThread, k);
      if k == threadCount - 1 {
        QuotientBetween(i, perThread, i / perThread);
        if i / perThread < threadCount - 1 {
          MulMonotone(perThread, i / perThread + 1, threadCount - 1);
        } else {
          MulMonotone(perThread, threadCount - 1, i / perThread);
        }
      }
    }
  }

  /** Each worker range holds `PerThread` pixels and the main thread's range holds
      `PerThread` plus the remainder `PixelCount % ThreadCount`. */
  lemma PartitionSizes(k: nat, pixelCount: nat, threadCount: nat, rayBounceCount: nat, frameCount: nat)
    requires k < threadCount
    ensures var span := Span(FrameJob(k, pixelCount, threadCount, rayBounceCount, frameCount));
            && (k < threadCount - 1 ==> span == PerThread(pixelCount, threadCount))
            && (k == threadCount - 1 ==> span == PerThread(pixelCount, threadCount) + pixelCount % threadCount)
  {
    var perThread := PerThread(pixelCount, threadCount);
    assert pixelCount == threadCount * perThread + pixelCount % threadCount;
    assert threadCount * perThread == (threadCount - 1) * perThread + perThread;
  }

  /** What one frame is rendered from: the camera rays (one per pixel), the scene, the
      settings, and the state each thread's random series starts the frame in. */
  datatype FrameInputs = FrameInputs(rays: seq<Ray>, meshes: seq<Mesh>, materials: seq<Material>, sqrt: real -> real,
                                     threadCount: nat, rayBounceCount: nat, frameCount: nat, states: seq<State>)

  /** Whether every thread of the frame has a series and every job can run. */
  predicate Renderable(f: FrameInputs)
  {
    MaterialsResolve(f.meshes, f.materials) && 1 <= f.threadCount <= |f.states| && f.frameCount >= 1
  }

  /** The job thread `k` runs in frame `f`. */
  function ThreadJob(f: FrameInputs, k: nat): (r: Job)
    requires k < f.threadCount
    ensures Runnable(r, |f.rays|, |f.rays|) <==> f.frameCount >= 1
  {
    FrameJob(k, |f.rays|, f.threadCount, f.rayBounceCount, f.frameCount)
  }

  /** The colour pixel `i` gains in frame `f`: the one its owner traces for it. */
  ghost function PixelSample(f: FrameInputs, i: nat): V3
    requires Renderable(f) && i < |f.rays|
  {
    var k := Owner(i, |f.rays|, f.threadCount);
    PartitionOwns(i, k, |f.rays|, f.threadCount, f.rayBounceCount, f.frameCount);
    JobSample(ThreadJob(f, k), f.rays, f.meshes, f.materials, f.sqrt, f.states[k], i)
  }

  /** The state the series of thread `k` ends frame `f` in. */
  ghost function FinalState(f: FrameInputs, k: nat): State
    requires Renderable(f) && k < f.threadCount
  {
    JobState(ThreadJob(f, k), f.rays, f.meshes, f.materials, f.sqrt, f.states[k])
  }

  /** The accumulation buffer once the threads in `done` have run their jobs of frame
      `f` on `acc0`: a pixel of one of their ranges has gained its sample, every other
      pixel is as it was. */
  ghost function PaintedAcc(f: FrameInputs, done: set<nat>, acc0: seq<V3>): (r: seq<V3>)
    requires Renderable(f) && |acc0| == |f.rays|
    ensures |r| == |acc0|
  {
    seq(|acc0|, i requires 0 <= i < |acc0| =>
      if Owner(i, |f.rays|, f.threadCount) in done then Add(acc0[i], PixelSample(f, i)) else acc0[i])
  }

  /** The display buffer once the threads in `done` have run their jobs of frame `f` on
      `acc0` and `display0`: a pixel of one of their ranges shows the resolved average
      of its new accumulated value, every other pixel is as it was. */
  ghost function PaintedDisplay(f: FrameInputs, done: set<nat>, acc0: seq<V3>, display0: seq<V3>): (r: seq<V3>)
    requires Renderable(f) && |acc0| == |display0| == |f.rays|
    ensures |r| == |display0|
  {
    seq(|display0|, i requires 0 <= i < |display0| =>
      if Owner(i, |f.rays|, f.threadCount) in done then Resolve(Add(acc0[i], PixelSample(f, i)), f.frameCount)
      else display0[i])
  }

  /** The state of every series once the threads in `done` have run their jobs. */
  ghost function StatesAfter(f: FrameInputs, done: set<nat>): (r: seq<State>)
    requires Renderable(f)
    ensures |r| == |f.states|
  {
    seq(|f.states|, k requires 0 <= k < |f.states| =>
      if k < f.threadCount && k in done then FinalState(f, k) else f.states[k])
  }

  /** The jobs of frame `f` queued on each worker queue while the workers `from` up to
      `to` hold theirs. */
  function QueuedJobs(f: FrameInputs, from: nat, to: nat): (r: seq<seq<Job>>)
    requires to <= f.threadCount
    ensures |r| == MaxThreadCount
  {
    seq(MaxThreadCount, k requires 0 <= k < MaxThreadCount => if from <= k < to then [ThreadJob(f, k)] else [])
  }

  /** Before any thread runs, the buffers are as they were. */
  lemma PaintedNone(f: FrameInputs, acc0: seq<V3>, display0: seq<V3>)
    requires Renderable(f) && |acc0| == |display0| == |f.rays|
    ensures PaintedAcc(f, {}, acc0) == acc0 && PaintedDisplay(f, {}, acc0, display0) == display0
    ensures StatesAfter(f, {}) == f.states
  {
    assert forall i :: 0 <= i < |acc0| ==> PaintedAcc(f, {}, acc0)[i] == acc0[i];
    assert forall i :: 0 <= i < |display0| ==> PaintedDisplay(f, {}, acc0, display0)[i] == display0[i];
    assert forall k :: 0 <= k < |f.states| ==> StatesAfter(f, {})[k] == f.states[k];
  }

  /** Running the job of one more thread, on the series that thread starts the frame
      with, paints its range, leaves the other ranges alone and ends the series in the
      thread's final state; so the threads may run in any order. */
  lemma {:induction false} PaintStep(f: FrameInputs, done: set<nat>, k: nat, acc0: seq<V3>, display0: seq<V3>)
    requires Renderable(f) && |acc0| == |display0| == |f.rays| && k < f.threadCount && k !in done
    ensures Runnable(ThreadJob(f, k), |f.rays|, |acc0|)
    ensures Run(ThreadJob(f, k), f.rays, f.meshes, f.materials, f.sqrt,
                Canvas(PaintedAcc(f, done, acc0), PaintedDisplay(f, done, acc0, display0), f.states[k]))
            == Canvas(PaintedAcc(f, done + {k}, acc0), PaintedDisplay(f, done + {k}, acc0, display0), FinalState(f, k))
  {
    var job := ThreadJob(f, k);
    var canvas := Canvas(PaintedAcc(f, done, acc0), PaintedDisplay(f, done, acc0, display0), f.states[k]);
    var r := Run(job, f.rays, f.meshes, f.materials, f.sqrt, canvas);
    var acc, display := PaintedAcc(f, done + {k}, acc0), PaintedDisplay(f, done + {k}, acc0, display0);
    RunAdvancesSeries(job, f.rays, f.meshes, f.materials, f.sqrt, canvas);
    forall i | 0 <= i < |f.rays|
      ensures r.acc[i] == acc[i] && r.display[i] == display[i]
    {
      RunWritesItsRange(job, f.rays, f.meshes, f.materials, f.sqrt, canvas, i);
      PartitionOwns(i, k, |f.rays|, f.threadCount, f.rayBounceCount, f.frameCount);
    }
    assert r.acc == acc && r.display == display;
  }

  /** Once every thread has run, every pixel has gained the colour its owner traced for
      it and shows the average over the frames so far, and every series of a thread
      is in its final state. */
  lemma PaintedAll(f: FrameInputs, done: set<nat>, acc0: seq<V3>, display0: seq<V3>)
    requires Renderable(f) && |acc0| == |display0| == |f.rays|
    requires forall k :: 0 <= k < f.threadCount ==> k in done
    ensures forall i :: 0 <= i < |f.rays| ==>
              && PaintedAcc(f, done, acc0)[i] == Add(acc0[i], PixelSample(f, i))
              && PaintedDisplay(f, done, acc0, display0)[i] == Resolve(PaintedAcc(f, done, acc0)[i], f.frameCount)
    ensures forall k :: 0 <= k < f.threadCount ==> StatesAfter(f, done)[k] == FinalState(f, k)
    ensures forall k :: f.threadCount <= k < |f.states| ==> StatesAfter(f, done)[k] == f.states[k]
  {
  }

  /** A whole frame run on an accumulation buffer holding the sum of `frames` leaves
      the sum of those frames and this one, and the display shows their average. */
  lemma PaintedAverage(f: FrameInputs, done: set<nat>, acc0: seq<V3>, display0: seq<V3>, frames: seq<seq<V3>>)
    requires Renderable(f) && |acc0| == |display0| == |f.rays|
    requires forall k :: 0 <= k < f.threadCount ==> k in done
    requires SumsTo(acc0, frames) && f.frameCount == |frames| + 1
    ensures SumsTo(PaintedAcc(f, done, acc0), frames + [FrameSamples(f)])
    ensures ShowsAverage(PaintedDisplay(f, done, acc0, display0), frames + [FrameSamples(f)])
  {
    PaintedAll(f, done, acc0, display0);
    SumsToAppend(acc0, PaintedAcc(f, done, acc0), frames, FrameSamples(f));
    AverageShown(PaintedAcc(f, done, acc0), PaintedDisplay(f, done, acc0, display0), frames + [FrameSamples(f)]);
  }

  /** On the first frame after a clear, a pixel an owner has run shows exactly the one
      colour traced for it, clamped, since the accumulated value is that colour and the
      divisor is 1. */
  lemma FirstFrameShowsOneSample(f: FrameInputs, done: set<nat>, acc0: seq<V3>, display0: seq<V3>, i: nat)
    requires Renderable(f) && |acc0| == |display0| == |f.rays| && f.frameCount == 1
    requires i < |acc0| && acc0[i] == Zero && Owner(i, |f.rays|, f.threadCount) in done
    ensures PaintedAcc(f, done, acc0)[i] == PixelSample(f, i)
    ensures PaintedDisplay(f, done, acc0, display0)[i] == ClampV3(PixelSample(f, i), Splat(0.0), Splat(1.0))
  {
  }

  /** Pushing the job of worker `k` after those before it. */
  lemma QueuedPush(f: FrameInputs, k: nat)
    requires k < f.threadCount - 1 && f.threadCount <= MaxThreadCount
    ensures QueuedJobs(f, 0, k)[k] == []
    ensures QueuedJobs(f, 0, k)[k := [ThreadJob(f, k)]] == QueuedJobs(f, 0, k + 1)
  {
  }

  /** Draining the queue of worker `from`, which holds its job. */
  lemma QueuedPop(f: FrameInputs, from: nat, to: nat)
    requires from < to <= f.threadCount && to <= MaxThreadCount
    ensures QueuedJobs(f, from, to)[from] == [ThreadJob(f, from)]
    ensures QueuedJobs(f, from, to)[from := []] == QueuedJobs(f, from + 1, to)
  {
  }

  /** With no worker between `from` and `to`, nothing is queued. */
  lemma QueuedNone(f: FrameInputs, from: nat, to: nat)
    requires to <= from && to <= f.threadCount
    ensures QueuedJobs(f, from, to) == seq(MaxThreadCount, _ => [])
  {
  }

  /** Thread `k` starts from its initial state and ends in its final one. */
  lemma StatesStep(f: FrameInputs, done: set<nat>, k: nat)
    requires Renderable(f) && k < f.threadCount && k !in done
    ensures StatesAfter(f, done)[k] == f.states[k]
    ensures StatesAfter(f, done)[k := FinalState(f, k)] == StatesAfter(f, done + {k})
  {
  }

  /** The threads that have run their job once the main thread and the workers below
      `n` are through. */
  ghost function Ran(n: nat, main: nat): (r: set<nat>)
    ensures forall k: nat :: k in r <==> k < n || k == main
  {
    if n == 0 then {main} else Ran(n - 1, main) + {n - 1}
  }

  /** The colours every pixel gains in frame `f`, in pixel order. */
  ghost function FrameSamples(f: FrameInputs): (r: seq<V3>)
    requires Renderable(f)
    ensures |r| == |f.rays|
    ensures forall i :: 0 <= i < |f.rays| ==> r[i] == PixelSample(f, i)
  {
    seq(|f.rays|, i requires 0 <= i < |f.rays| => PixelSample(f, i))
  }

  /** The sum at pixel `i` of the samples of `frames`, one frame after another. */
  function SampleSum(frames: seq<seq<V3>>, i: nat): V3
    requires forall j :: 0 <= j < |frames| ==> i < |frames[j]|
  {
    if |frames| == 0 then Zero else Add(SampleSum(frames[..|frames| - 1], i), frames[|frames| - 1][i])
  }

  /** Each pixel of `acc` holds the sum of its samples in `frames`. */
  ghost predicate SumsTo(acc: seq<V3>, frames: seq<seq<V3>>)
  {
    && (forall j :: 0 <= j < |frames| ==> |frames[j]| == |acc|)
    && (forall i :: 0 <= i < |acc| ==> acc[i] == SampleSum(frames, i))
  }

  /** Each pixel of `display` shows the average of its samples in `frames`, clamped. */
  ghost predicate ShowsAverage(display: seq<V3>, frames: seq<seq<V3>>)
  {
    && |frames| >= 1
    && (forall j :: 0 <= j < |frames| ==> |frames[j]| == |display|)
    && (forall i :: 0 <= i < |display| ==> display[i] == Resolve(SampleSum(frames, i), |frames|))
  }

  /** A frame that adds `frame[i]` to every pixel `i` of a running sum extends it by
      that frame. */
  lemma SumsToAppend(acc0: seq<V3>, acc1: seq<V3>, frames: seq<seq<V3>>, frame: seq<V3>)
    requires SumsTo(acc0, frames) && |frame| == |acc0| == |acc1|
    requires forall i :: 0 <= i < |acc1| ==> acc1[i] == Add(acc0[i], frame[i])
    ensures SumsTo(acc1, frames + [frame])
  {
    var next := frames + [frame];
    assert next[..|frames|] == frames;
  }

  /** Resolving a running sum by the number of frames it holds shows their average. */
  lemma AverageShown(acc: seq<V3>, display: seq<V3>, frames: seq<seq<V3>>)
    requires SumsTo(acc, frames) && |frames| >= 1 && |display| == |acc|
    requires forall i :: 0 <= i < |display| ==> display[i] == Resolve(acc[i], |frames|)
    ensures ShowsAverage(display, frames)
  {
  }

  /** A new `width` by `height` frame buffer with every pixel black. */
  method ClearedBuffer(width: nat, height: nat) returns (buffer: FrameBuffer)
    requires width != 0 && height != 0
    ensures fresh(buffer) && fresh(buffer.pixels) && buffer.Valid()
    ensures buffer.width == width && buffer.height == height
    ensures forall i :: 0 <= i < buffer.pixels.Length ==> buffer.pixels[i] == Zero
  {
    buffer := new FrameBuffer(width, height);
    buffer.Clear();
  }

  /** The scene `main` builds: a red, a green and a slightly rough blue material, two
      small spheres side by side in front of the camera and a large one below them as
      the ground. */
  method SetUpWorld() returns (world: World)
    ensures fresh(world) && fresh(world.materials) && fresh(world.meshes) && world.Valid()
    ensures world.Materials()
            == [Material(V3(1.0, 0.0, 0.0), 0.0), Material(V3(0.0, 1.0, 0.0), 0.0), Material(V3(0.0, 0.0, 1.0), 0.2)]
    ensures world.Meshes()
            == [Mesh(Sphere(V3(0.5, 0.0, -1.0), 0.5), 0), Mesh(Sphere(V3(-0.5, 0.0, -1.0), 0.5), 1),
                Mesh(Sphere(V3(0.0, -100.5, -1.0), 100.0), 2)]
  {
    world := new World();
    var material := world.PushMaterial(V3(1.0, 0.0, 0.0), 0.0);
    material := world.PushMaterial(V3(0.0, 1.0, 0.0), 0.0);
    material := world.PushMaterial(V3(0.0, 0.0, 1.0), 0.2);
    var sphere := world.PushSphere(V3(0.5, 0.0, -1.0), 0.5, 0);
    sphere := world.PushSphere(V3(-0.5, 0.0, -1.0), 0.5, 1);
    sphere := world.PushSphere(V3(0.0, -100.5, -1.0), 100.0, 2);
  }

  /** The locals of `main` the frame loop works on: the two frame buffers, the camera,
      the world, the job system and the two settings. The window, the texture and the
      user interface are not modelled; `sqrt` stands for the square root the vector
      routines use. */
  class Tracer {
    const accumulation: FrameBuffer
    const viewport: FrameBuffer
    const camera: Camera
    const world: World
    const system: JobSystem
    const sqrt: real -> real
    var rayBounceCount: nat
    var frameCount: nat
    /** The colours each frame since the last clear added to every pixel, oldest first. */
    ghost var samples: seq<seq<V3>>

    /** What holds throughout the loop: both buffers and the camera have the viewport's
        size, the camera's rays are aimed at it, and the world and job system are
        well formed. */
    ghost predicate Consistent()
      reads this, accumulation, viewport, camera, camera.rays, world, world.meshes, system, system.queues
    {
      && accumulation.Valid() && viewport.Valid() && accumulation.pixels != viewport.pixels
      && accumulation.width == viewport.width && accumulation.height == viewport.height
      && viewport.width >= 2 && viewport.height >= 2
      && camera.ShowsViewport(viewport.width, viewport.height, sqrt)
      && world.Valid() && system.Valid() && frameCount >= 1
    }

    /** `Consistent`, between two frames: every queue is empty. */
    ghost predicate Valid()
      reads this, accumulation, viewport, camera, camera.rays, world, world.meshes, system, system.queues
    {
      Consistent() && system.Idle()
    }

    /** The accumulation buffer is the running sum of the samples since the last clear,
        and `FrameCount` is one more than the number of frames it holds. */
    ghost predicate Averaging()
      reads this, accumulation, accumulation.pixels
    {
      frameCount == |samples| + 1 && SumsTo(accumulation.pixels[..], samples)
    }

    /** Whether `f` holds the rays, scene and settings the tracer has now. */
    ghost predicate Current(f: FrameInputs)
      reads this, camera, camera.rays, world, world.meshes, world.materials, system
    {
      && world.meshCount <= world.meshes.Length
      && f.rays == camera.rays[..] && f.meshes == world.Meshes() && f.materials == world.materials[..]
      && f.sqrt == sqrt && f.threadCount == system.threadCount
      && f.rayBounceCount == rayBounceCount && f.frameCount == frameCount
    }

    /** What the next frame is rendered from. */
    ghost function Inputs(): (f: FrameInputs)
      reads this, accumulation, viewport, camera, camera.rays, world, world.meshes, world.materials, system,
            system.queues, system.storage
      requires Consistent()
      ensures Current(f) && Renderable(f) && f.states == system.States()
      ensures |f.rays| == accumulation.pixels.Length == viewport.pixels.Length && |f.states| == MaxThreadCount
    {
      FrameInputs(camera.rays[..], world.Meshes(), world.materials[..], sqrt, system.threadCount, rayBounceCount,
                  frameCount, system.States())
    }

    /** The setup of `main`: both buffers 1280 by 720 with the accumulation buffer
        cleared, a camera of focal length 1 at the origin aimed at the viewport, three
        materials and three spheres, two bounces, the first frame, and the job system. */
    constructor (hardwareConcurrency: nat, seeds: seq<(bv64, bv64)>, sqrt: real -> real)
      requires hardwareConcurrency >= 2 && |seeds| == ThreadCountFor(hardwareConcurrency)
      ensures Valid() && this.sqrt == sqrt
      ensures viewport.width == 1280 && viewport.height == 720
      ensures forall i :: 0 <= i < accumulation.pixels.Length ==> accumulation.pixels[i] == Zero
      ensures camera.focalLength == 1.0 && camera.origin == Zero
      ensures world.Materials()
              == [Material(V3(1.0, 0.0, 0.0), 0.0), Material(V3(0.0, 1.0, 0.0), 0.0), Material(V3(0.0, 0.0, 1.0), 0.2)]
      ensures world.Meshes()
              == [Mesh(Sphere(V3(0.5, 0.0, -1.0), 0.5), 0), Mesh(Sphere(V3(-0.5, 0.0, -1.0), 0.5), 1),
                  Mesh(Sphere(V3(0.0, -100.5, -1.0), 100.0), 2)]
      ensures rayBounceCount == 2 && frameCount == 1 && samples == [] && Averaging()
      ensures system.threadCount == ThreadCountFor(hardwareConcurrency)
      ensures forall k :: 0 <= k < system.threadCount ==> system.storage[k].shuffleTable == Seeded(seeds[k].0, seeds[k].1)
      ensures fresh(accumulation) && fresh(accumulation.pixels) && fresh(viewport) && fresh(viewport.pixels)
      ensures fresh(camera) && fresh(camera.rays) && fresh(world) && fresh(world.meshes) && fresh(world.materials)
      ensures fresh(system)
      ensures forall i :: 0 <= i < MaxThreadCount ==>
                fresh(system.storage[i]) && fresh(system.queues[i]) && fresh(system.queues[i].jobs)
    {
      var accumulationBuffer := ClearedBuffer(1280, 720);
      var viewportBuffer := new FrameBuffer(1280, 720);
      var viewportCamera := new Camera(viewportBuffer.width, viewportBuffer.height, 1.0, V3(0.0, 0.0, 0.0), sqrt);
      var scene := SetUpWorld();
      var jobSystem := new JobSystem(hardwareConcurrency, seeds);
      accumulation := accumulationBuffer;
      viewport := viewportBuffer;
      camera := viewportCamera;
      world := scene;
      system := jobSystem;
      this.sqrt := sqrt;
      rayBounceCount := 2;
      frameCount := 1;
      samples := [];
    }


    /** The state part way through frame `f`, begun on buffers `acc0` and `display0`:
        the workers `from` up to `to` have their job queued, the threads in `done` have
        run theirs, and nothing else has changed. */
    ghost predicate Stage(f: FrameInputs, from: nat, to: nat, done: set<nat>, acc0: seq<V3>, display0: seq<V3>)
      reads this, accumulation, viewport, accumulation.pixels, viewport.pixels, camera, camera.rays, world,
            world.meshes, world.materials, system, system.queues, system.storage, set q <- system.queues :: q.jobs
    {
      && Consistent() && Current(f) && Renderable(f) && to <= f.threadCount - 1
      && |acc0| == |display0| == |f.rays| && |f.states| == MaxThreadCount
      && system.Pendings() == QueuedJobs(f, from, to)
      && system.States() == StatesAfter(f, done)
      && accumulation.pixels[..] == PaintedAcc(f, done, acc0)
      && viewport.pixels[..] == PaintedDisplay(f, done, acc0, display0)
    }

    /** Push `job` onto queue `threadIndex` of the job system, keeping the tracer
        consistent. */
    method Enqueue(threadIndex: nat, job: Job)
      requires Consistent() && threadIndex < MaxThreadCount && system.Pendings()[threadIndex] == []
      modifies system.queues[threadIndex], system.queues[threadIndex].jobs
      ensures Consistent()
      ensures system.Pendings() == old(system.Pendings())[threadIndex := [job]]
    {
      system.QueueTraceRaysJobs(threadIndex, job);
      assert [] + [job] == [job];
    }

    /** One pass of the job loop of the frame: push the range of worker `threadIndex`
        onto its own queue. */
    method QueueWorkerJob(ghost f: FrameInputs, threadIndex: nat, pixelCount: nat, ghost acc0: seq<V3>,
                          ghost display0: seq<V3>)
      requires Stage(f, 0, threadIndex, {}, acc0, display0) && threadIndex < system.threadCount - 1
      requires pixelCount == |f.rays|
      modifies system.queues[threadIndex], system.queues[threadIndex].jobs
      ensures Stage(f, 0, threadIndex + 1, {}, acc0, display0)
    {
      var job := FrameJob(threadIndex, pixelCount, system.threadCount, rayBounceCount, frameCount);
      assert job == ThreadJob(f, threadIndex);
      QueuedPush(f, threadIndex);
      Enqueue(threadIndex, job);
    }

    /** The job loop of the frame: push each worker's range onto its own queue. */
    method QueueWorkerJobs(ghost f: FrameInputs, pixelCount: nat, ghost acc0: seq<V3>, ghost display0: seq<V3>)
      requires Stage(f, 0, 0, {}, acc0, display0) && pixelCount == |f.rays|
      modifies system.queues, set q <- system.queues :: q.jobs
      ensures Stage(f, 0, f.threadCount - 1, {}, acc0, display0)
    {
      for threadIndex := 0 to system.threadCount - 1
        invariant Stage(f, 0, threadIndex, {}, acc0, display0)
      {
        QueueWorkerJob(f, threadIndex, pixelCount, acc0, display0);
      }
    }

    /** The main thread's own range, the last one, traced inline with the series of the
        last thread. */
    method TraceMainRange(ghost f: FrameInputs, pixelCount: nat, ghost acc0: seq<V3>, ghost display0: seq<V3>)
      requires f.threadCount >= 1 && Stage(f, 0, f.threadCount - 1, {}, acc0, display0) && pixelCount == |f.rays|
      modifies accumulation.pixels, viewport.pixels, system.storage[system.threadCount - 1]
      ensures Stage(f, 0, f.threadCount - 1, {f.threadCount - 1}, acc0, display0)
    {
      var threadIndex := system.threadCount - 1;
      var job := FrameJob(threadIndex, pixelCount, system.threadCount, rayBounceCount, frameCount);
      PaintStep(f, {}, threadIndex, acc0, display0);
      StatesStep(f, {}, threadIndex);
      assert {} + {threadIndex} == {threadIndex};
      TraceRays(job, world, camera, accumulation, viewport, system.storage[threadIndex], sqrt);
    }

    /** One worker thread's share of the frame: drain its queue, which holds its one
        job. */
    method DrainWorker(ghost f: FrameInputs, threadIndex: nat, ghost done: set<nat>, ghost acc0: seq<V3>,
                       ghost display0: seq<V3>)
      requires threadIndex < f.threadCount - 1 && Stage(f, threadIndex, f.threadCount - 1, done, acc0, display0)
      requires threadIndex !in done
      modifies accumulation.pixels, viewport.pixels, system.storage[threadIndex], system.queues[threadIndex]
      ensures Stage(f, threadIndex + 1, f.threadCount - 1, done + {threadIndex}, acc0, display0)
    {
      PaintStep(f, done, threadIndex, acc0, display0);
      StatesStep(f, done, threadIndex);
      QueuedPop(f, threadIndex, f.threadCount - 1);
      ghost var ran := system.RunWorker(threadIndex, world, camera, accumulation, viewport, sqrt);
      assert ran[..0] == [];
    }

    /** The worker threads, each draining its queue. They run one after another here,
        which renders the same frame as any interleaving since their ranges and series
        are disjoint. */
    method RunWorkers(ghost f: FrameInputs, ghost acc0: seq<V3>, ghost display0: seq<V3>)
      returns (ghost done: set<nat>)
      requires f.threadCount >= 1 && Stage(f, 0, f.threadCount - 1, {f.threadCount - 1}, acc0, display0)
      modifies accumulation.pixels, viewport.pixels, system.storage, system.queues
      ensures Stage(f, f.threadCount - 1, f.threadCount - 1, done, acc0, display0)
      ensures forall k :: 0 <= k < f.threadCount ==> k in done
    {
      done := Ran(0, f.threadCount - 1);
      assert done == {f.threadCount - 1};
      for threadIndex: nat := 0 to system.threadCount - 1
        invariant done == Ran(threadIndex, f.threadCount - 1)
        invariant Stage(f, threadIndex, f.threadCount - 1, done, acc0, display0)
      {
        DrainWorker(f, threadIndex, done, acc0, display0);
        done := done + {threadIndex};
      }
    }

    /** The tracing part of a frame: split the pixels, queue the workers' ranges, trace
        the main thread's range and let every worker drain its queue. */
    method TraceFrame(ghost f: FrameInputs, ghost acc0: seq<V3>, ghost display0: seq<V3>) returns (ghost done: set<nat>)
      requires Valid() && f == Inputs() && acc0 == accumulation.pixels[..] && display0 == viewport.pixels[..]
      modifies accumulation.pixels, viewport.pixels, system.storage, system.queues, set q <- system.queues :: q.jobs
      ensures f.threadCount >= 1 && Stage(f, f.threadCount - 1, f.threadCount - 1, done, acc0, display0)
      ensures forall k :: 0 <= k < f.threadCount ==> k in done
    {
      PaintedNone(f, acc0, display0);
      system.IdleIffNothingPending();
      QueuedNone(f, 0, 0);
      var pixelCount := viewport.width * viewport.height;
      QueueWorkerJobs(f, pixelCount, acc0, display0);
      TraceMainRange(f, pixelCount, acc0, display0);
      done := RunWorkers(f, acc0, display0);
    }

    /** A whole frame up to the wait: trace it, then wait until every queue is empty.
        On a buffer holding the sum of `frames`, the buffer then holds the sum of those
        and this frame, and the display shows their average. */
    method TraceAndWait(ghost f: FrameInputs, ghost frames: seq<seq<V3>>)
      requires Valid() && f == Inputs() && SumsTo(accumulation.pixels[..], frames) && frameCount == |frames| + 1
      modifies accumulation.pixels, viewport.pixels, system.storage, system.queues, set q <- system.queues :: q.jobs
      ensures Valid()
      ensures SumsTo(accumulation.pixels[..], frames + [FrameSamples(f)])
      ensures ShowsAverage(viewport.pixels[..], frames + [FrameSamples(f)])
      ensures forall i :: 0 <= i < accumulation.pixels.Length ==>
                && accumulation.pixels[i] == Add(old(accumulation.pixels[i]), PixelSample(f, i))
                && viewport.pixels[i] == Resolve(accumulation.pixels[i], frameCount)
      ensures forall k :: 0 <= k < system.threadCount ==> system.storage[k].shuffleTable == FinalState(f, k)
      ensures forall k :: system.threadCount <= k < MaxThreadCount ==>
                system.storage[k].shuffleTable == old(system.storage[k].shuffleTable)
    {
      ghost var acc0, display0 := accumulation.pixels[..], viewport.pixels[..];
      ghost var done := TraceFrame(f, acc0, display0);
      QueuedNone(f, f.threadCount - 1, f.threadCount - 1);
      system.IdleIffNothingPending();
      var completed := system.AllJobsCompleted();
      assert completed;
      PaintedAll(f, done, acc0, display0);
      PaintedAverage(f, done, acc0, display0, frames);
    }

    /** One pass of the frame loop up to the settings window: split the pixels, queue
        the workers' ranges, trace the main thread's range, wait until every queue is
        empty, and count the frame. Each pixel gains the one colour its owner traces and
        shows the new average over the frames so far. */
    method RenderFrame()
      requires Valid() && Averaging()
      modifies this, accumulation.pixels, viewport.pixels, system.storage, system.queues,
               set q <- system.queues :: q.jobs
      ensures Valid() && rayBounceCount == old(rayBounceCount) && frameCount == old(frameCount) + 1
      ensures Averaging() && samples == old(samples) + [FrameSamples(old(Inputs()))]
      ensures ShowsAverage(viewport.pixels[..], samples)
      ensures forall i :: 0 <= i < accumulation.pixels.Length ==>
                && accumulation.pixels[i] == Add(old(accumulation.pixels[i]), PixelSample(old(Inputs()), i))
                && viewport.pixels[i] == Resolve(accumulation.pixels[i], old(frameCount))
      ensures forall k :: 0 <= k < system.threadCount ==> system.storage[k].shuffleTable == FinalState(old(Inputs()), k)
      ensures forall k :: system.threadCount <= k < MaxThreadCount ==>
                system.storage[k].shuffleTable == old(system.storage[k].shuffleTable)
    {
      ghost var f := Inputs();
      TraceAndWait(f, samples);
      frameCount, samples := frameCount + 1, samples + [FrameSamples(f)];
    }

    /** The end of a pass of the frame loop: when the viewport's size changed, restart
        the count at the first frame and resize the camera and both buffers; then, on
        the first frame, clear the accumulation buffer. */
    method EndFrame(viewportWidth: nat, viewportHeight: nat)
      requires Valid() && Averaging() && viewportWidth >= 2 && viewportHeight >= 2
      modifies this, camera, accumulation, viewport, accumulation.pixels
      ensures Valid() && Averaging() && rayBounceCount == old(rayBounceCount)
      ensures accumulation.pixels == old(accumulation.pixels) || fresh(accumulation.pixels)
      ensures viewport.pixels == old(viewport.pixels) || fresh(viewport.pixels)
      ensures frameCount == 1 ==> samples == []
      ensures frameCount != 1 ==> samples == old(samples) && viewport.pixels[..] == old(viewport.pixels[..])
      ensures camera.focalLength == old(camera.focalLength) && camera.origin == old(camera.origin)
      ensures viewport.width == viewportWidth && viewport.height == viewportHeight
      ensures old(viewport.width) != viewportWidth || old(viewport.height) != viewportHeight ==> frameCount == 1
      ensures old(viewport.width) == viewportWidth && old(viewport.height) == viewportHeight ==>
                && frameCount == old(frameCount) && camera.rays == old(camera.rays)
                && viewport.pixels == old(viewport.pixels)
      ensures frameCount == 1 ==> forall i :: 0 <= i < accumulation.pixels.Length ==> accumulation.pixels[i] == Zero
      ensures frameCount != 1 ==>
                accumulation.pixels == old(accumulation.pixels) && accumulation.pixels[..] == old(accumulation.pixels[..])
    {
      if viewportWidth != viewport.width || viewportHeight != viewport.height {
        Restart(viewportWidth, viewportHeight);
      }
      if frameCount == 1 {
        accumulation.Clear();
        samples := [];
      }
    }

    /** The resize branch of `EndFrame`: back to the first frame, with the camera and
        both buffers at the new size. */
    method Restart(viewportWidth: nat, viewportHeight: nat)
      requires Valid() && viewportWidth >= 2 && viewportHeight >= 2
      modifies this, camera, accumulation, viewport
      ensures Valid() && rayBounceCount == old(rayBounceCount) && samples == old(samples) && frameCount == 1
      ensures camera.focalLength == old(camera.focalLength) && camera.origin == old(camera.origin)
      ensures viewport.width == viewportWidth && viewport.height == viewportHeight
      ensures fresh(accumulation.pixels) && fresh(viewport.pixels)
    {
      frameCount := 1;
      camera.Resize(viewportWidth, viewportHeight, sqrt);
      accumulation.Resize(viewportWidth, viewportHeight);
      viewport.Resize(viewportWidth, viewportHeight);
    }

    /** The frame loop of `main`, one pass for each size the viewport window reports
        until the window closes: render a frame, then resize and clear as `EndFrame`
        says. Between passes the display shows the average of every frame since the
        last clear, unless a resize has just restarted the count; while the size stays
        the same every pass counts one more frame. */
    method RunFrames(viewportSizes: seq<(nat, nat)>)
      requires Valid() && Averaging() && (frameCount == 1 || ShowsAverage(viewport.pixels[..], samples))
      requires forall k :: 0 <= k < |viewportSizes| ==> viewportSizes[k].0 >= 2 && viewportSizes[k].1 >= 2
      modifies this, camera, accumulation, viewport, accumulation.pixels, viewport.pixels, system.storage,
               system.queues, set q <- system.queues :: q.jobs
      ensures Valid() && Averaging() && rayBounceCount == old(rayBounceCount)
      ensures frameCount == 1 || ShowsAverage(viewport.pixels[..], samples)
      ensures |viewportSizes| > 0 ==> (viewport.width, viewport.height) == viewportSizes[|viewportSizes| - 1]
      ensures camera.focalLength == old(camera.focalLength) && camera.origin == old(camera.origin)
      ensures (forall k :: 0 <= k < |viewportSizes| ==> viewportSizes[k] == (old(viewport.width), old(viewport.height)))
              ==> frameCount == old(frameCount) + |viewportSizes|
                  && (viewport.width, viewport.height) == (old(viewport.width), old(viewport.height))
    {
      for k: nat := 0 to |viewportSizes|
        invariant Valid() && Averaging() && rayBounceCount == old(rayBounceCount)
        invariant frameCount == 1 || ShowsAverage(viewport.pixels[..], samples)
        invariant accumulation.pixels == old(accumulation.pixels) || fresh(accumulation.pixels)
        invariant viewport.pixels == old(viewport.pixels) || fresh(viewport.pixels)
        invariant k > 0 ==> (viewport.width, viewport.height) == viewportSizes[k - 1]
        invariant camera.focalLength == old(camera.focalLength) && camera.origin == old(camera.origin)
        invariant (forall j :: 0 <= j < k ==> viewportSizes[j] == (old(viewport.width), old(viewport.height)))
                  ==> frameCount == old(frameCount) + k && (viewport.width, viewport.height) == (old(viewport.width), old(viewport.height))
      {
        FramePass(viewportSizes[k].0, viewportSizes[k].1);
      }
    }

    /** One pass of the frame loop: render a frame, then end it at the size the
        viewport window reports. */
    method FramePass(viewportWidth: nat, viewportHeight: nat)
      requires Valid() && Averaging() && viewportWidth >= 2 && viewportHeight >= 2
      modifies this, camera, accumulation, viewport, accumulation.pixels, viewport.pixels, system.storage,
               system.queues, set q <- system.queues :: q.jobs
      ensures Valid() && Averaging() && rayBounceCount == old(rayBounceCount)
      ensures frameCount == 1 || ShowsAverage(viewport.pixels[..], samples)
      ensures accumulation.pixels == old(accumulation.pixels) || fresh(accumulation.pixels)
      ensures viewport.pixels == old(viewport.pixels) || fresh(viewport.pixels)
      ensures viewport.width == viewportWidth && viewport.height == viewportHeight
      ensures camera.focalLength == old(camera.focalLength) && camera.origin == old(camera.origin)
      ensures (viewportWidth, viewportHeight) == (old(viewport.width), old(viewport.height)) ==>
                frameCount == old(frameCount) + 1
    {
      RenderFrame();
      EndFrame(viewportWidth, viewportHeight);
    }
  }

  /** `main` from the setup to the end of the frame loop: build the tracer, then run
      one pass for each size the viewport window reports. The camera keeps its focal
      length and origin, the display shows the average of the frames since the last
      clear unless the last pass resized, and at an unchanged 1280 by 720 viewport
      every pass counts one more frame. */
  method RunTracer(hardwareConcurrency: nat, seeds: seq<(bv64, bv64)>, sqrt: real -> real,
                   viewportSizes: seq<(nat, nat)>)
    returns (tracer: Tracer)
    requires hardwareConcurrency >= 2 && |seeds| == ThreadCountFor(hardwareConcurrency)
    requires forall k :: 0 <= k < |viewportSizes| ==> viewportSizes[k].0 >= 2 && viewportSizes[k].1 >= 2
    ensures tracer.Valid() && tracer.Averaging() && tracer.rayBounceCount == 2
    ensures tracer.camera.focalLength == 1.0 && tracer.camera.origin == Zero
    ensures tracer.frameCount == 1 || ShowsAverage(tracer.viewport.pixels[..], tracer.samples)
    ensures (tracer.viewport.width, tracer.viewport.height)
            == if |viewportSizes| == 0 then (1280, 720) else viewportSizes[|viewportSizes| - 1]
    ensures (forall k :: 0 <= k < |viewportSizes| ==> viewportSizes[k] == (1280, 720)) ==>
              tracer.frameCount == 1 + |viewportSizes|
  {
    tracer := new Tracer(hardwareConcurrency, seeds, sqrt);
    tracer.RunFrames(viewportSizes);
  }
}
