# Tracer: a verified model of the progressive path tracer's core

Tracer is an interactive progressive path tracer. Each displayed frame works like this:

- The pixel range of the viewport is split into one contiguous range per hardware thread.
- Each worker's range goes into that worker's 1024-slot circular work queue. The main thread traces the last range itself.
- The main thread then waits until every queue is empty, and counts the frame.
- Tracing a pixel means:
  - follow its camera ray through a small world of spheres for a bounded number of bounces, halving the weight of each bounce;
  - add the colour to the accumulation buffer;
  - write the average over the frames since the last clear, clamped to the unit cube, to the display buffer.
- Resizing the viewport restarts the count at frame 1, and on frame 1 the accumulation buffer is cleared.

This project models that core in Dafny:

- the vector helpers;
- the xorshift128+ random series;
- the frame buffers;
- the camera and its row-major ray array;
- the world with its fixed-capacity tables;
- the ray/sphere cast, the nearest-hit scan and the bounce loop of `TraceRay`;
- the `TraceRays` job;
- the work queues and the job system;
- the frame loop of `main`.

Objects the source updates in place are classes with `modifies` clauses: the frame buffers, the camera, the world, the random series, the queues, the job system, and the locals of `main`. Pure computations are functions. Every loop of the source is a method with loop invariants. The main ones are proved against a recursive specification function:

- the frame loop of `main` against `Frame.SampleSum`, the sum at each pixel of the samples since the last clear;
- `TraceRay` against `Paths.Bounces`;
- `TraceRays` against `Jobs.Run`;
- the drain loop against `Jobs.RunAll`;
- `ResizeCamera` against `Cameras.PrimaryRay`.

Floating-point values are idealised as `real`. The square root is a parameter `sqrt: real -> real`. Where a lemma needs a true square root, it says so in its `requires`. Clock readings (the two `time()` calls that seed each series) and `hardware_concurrency()` are parameters.

The modules, leaves first:

- `Vectors` (vectors.dfy)
- `Random` (random.dfy)
- `FrameBuffers` (framebuffer.dfy)
- `Cameras` (camera.dfy)
- `Scene` (scene.dfy)
- `Paths` (paths.dfy)
- `Tracing` (tracing.dfy)
- `Accumulation` (accumulation.dfy)
- `Jobs` (jobs.dfy)
- `Queues` (queues.dfy)
- `Frame` (frame.dfy)

The display buffer receives the clamped average with no gamma applied (source/tracer_jobs.cpp:16). The model follows that, not a gamma-encoded colour.

## Model

| member | source | states |
|---|---|---|
| Vectors.GetPixelIndex | source/tracer_math.h:25-29 | for `x < width`, the index of (x, y) lies in row `y`'s span `[y*width, (y+1)*width)` |
| Vectors.PixelIndexBound | source/tracer_math.h:25-29 | a pixel inside a `width` by `height` buffer has an index below `width*height` |
| Vectors.PixelIndexRoundTrip | source/tracer_math.h:25-29 | the index read back as `(i % width, i / width)` gives the pixel (x, y) again |
| Vectors.PixelIndexOnto | source/tracer_math.h:25-29 | every index below `width*height` is the index of the pixel `(i % width, i / width)` inside the buffer, so the map is a bijection |
| Vectors.Minimum | source/tracer_math.h:317-323 | the branchless selection returns one of its operands, and it is at most both |
| Vectors.Maximium | source/tracer_math.h:325-330 | the branchless selection returns one of its operands, and it is at least both |
| Vectors.Clamp | source/tracer_math.h:332-336 | with `lo <= hi` the result lies in `[lo, hi]`: the value itself when in range, `lo` below, `hi` above; with `hi < lo` the result is `hi` |
| Vectors.ClampV3InUnitCube | source/tracer_math.h:338-353 | clamping each component to [0, 1] lands in the unit cube and leaves a colour already there unchanged |
| Vectors.Lerp | source/tracer_math.h:17 | `Lerp(a, b, 0) == a`, `Lerp(a, b, 1) == b`, and for `t` in [0, 1] the result lies between `a` and `b` |
| Vectors.Normalize | source/tracer_math.cpp:3-13 | for a positive magnitude the result times the magnitude is the input; otherwise the fallback is returned |
| Vectors.NormalizeIsUnit | source/tracer_math.cpp:5-10 | dividing by the true length gives a vector of unit length |
| Vectors.GetRaySphereIntersectionInfo | source/tracer_math.cpp:15-36 | the point is `origin + t*direction`; the normal is the outward normal or its negation and never faces along the ray; `frontFace` holds exactly when the outward normal was kept |
| Vectors.SphereQuadratic | source/tracer_main.cpp:94-100 | a point of the ray lies on the sphere exactly when its parameter is a root of the quadratic `A*v^2 + 2*HalfB*v + C` |
| Random.Seeded | source/tracer_random.h:13-20 | `RandomSeries()` puts the first clock reading in slot 0 and the second in slot 1; the slots agree exactly when the two readings do |
| Random.Raw | source/tracer_random.h:24-26 | the raw output is the 64-bit wrapping sum of the slots, at most `ULLONG_MAX` |
| Random.Next | source/tracer_random.h:24-29 | the xorshift128+ step in 64-bit arithmetic; the contract states that the new slot 0 is the old slot 1, and the body defines slot 1 as the shifted mix, whose properties `Random.ZeroIsFixedPoint` and `Random.NonZeroStaysNonZero` state |
| Random.ZeroIsFixedPoint | source/tracer_random.h:24-30 | the all-zero state steps to itself and yields raw output 0 |
| Random.NonZeroStaysNonZero | source/tracer_random.h:24-29 | a state that is not all zero never steps to the all-zero state |
| Random.Canonical | source/tracer_random.h:30 | `raw / ULLONG_MAX` lies in [0, 1]; it is 0 exactly for raw 0 and 1 exactly for `ULLONG_MAX` |
| Random.Draw | source/tracer_random.h:22-31 | the value one `RandomCanonical` draws from a state lies in [0, 1] |
| Random.Between | source/tracer_random.h:33-39 | `Min + (Max - Min)*r` lies in `[Min, Max]` for `r` in [0, 1], and hits `Min` at 0 and `Max` at 1 |
| Random.DrawV3 | source/tracer_random.h:41-49 | the three components drawn from successive states all lie in `[Min, Max]` |
| Random.RandomSeries.constructor | source/tracer_random.h:13-20 | the new series holds the state seeded by its two clock readings |
| Random.RandomSeries.RandomCanonical | source/tracer_random.h:22-31 | advances the state by one `Next` and returns the draw of the old state, which lies in [0, 1] |
| Random.RandomSeries.RandomBetween | source/tracer_random.h:33-39 | advances the state once and returns the old state's draw mapped into `[Min, Max]` |
| Random.RandomSeries.RandomV3 | source/tracer_random.h:41-49 | advances the state exactly three times and uses the draws for X, Y and Z in that order |
| FrameBuffers.Cleared | source/tracer_framebuffer.cpp:25-29 | a cleared buffer has the same length and every pixel is the zero vector |
| FrameBuffers.ClearedIsIdempotent | source/tracer_framebuffer.cpp:28 | clearing twice gives what clearing once gives |
| FrameBuffers.FrameBuffer.constructor | source/tracer_framebuffer.cpp:3-13 | requires nonzero sizes; sets both sizes and allocates `width*height` pixels |
| FrameBuffers.FrameBuffer.Resize | source/tracer_framebuffer.cpp:15-23 | with no check on the sizes, sets both sizes and reallocates to `width*height` pixels; the pixels the two arrays have in common keep their values |
| FrameBuffers.FrameBuffer.Clear | source/tracer_framebuffer.cpp:25-29 | zeroes every pixel and keeps the sizes and the array |
| Cameras.SampleU | source/tracer_camera.cpp:19-28 | `U*(width-1) == x + 0.5`, and `U` is positive |
| Cameras.SampleV | source/tracer_camera.cpp:19-29 | `V*(height-1) == (height - y) - 0.5`, positive for every row, with row 0 at the top |
| Cameras.SamplesEvenlySpaced | source/tracer_camera.cpp:28-29 | one column right adds `1/(width-1)` to `U`; one row down removes `1/(height-1)` from `V` |
| Cameras.PrimaryRayHitsSample | source/tracer_camera.cpp:30-36 | a primary ray starts at the origin, and its direction scaled by the offset's length is the offset to the sample point |
| Cameras.AimRow | source/tracer_camera.cpp:26-37 | after the inner loop for row `y`, the indices up to `(y+1)*width` hold their pixels' rays |
| Cameras.AimRays | source/tracer_camera.cpp:24-38 | after the nested loop, every index `i` holds the primary ray of pixel `(i % width, i / width)` |
| Cameras.Camera.RaysLeaveOrigin | source/tracer_camera.cpp:34-36 | every ray of a resized camera starts at the origin and points at its pixel's sample point |
| Cameras.Camera.constructor | source/tracer_camera.cpp:41-51 | sets the focal length and origin, then establishes exactly what `Resize` does |
| Cameras.Camera.Resize | source/tracer_camera.cpp:3-39 | aspect ratio `W/H`, viewport `(2*aspect, 2)`, lower-left corner `origin - (viewport/2, 0) - (0, 0, focal)`, `RayCount == W*H`, a fresh array of that length with every index holding its pixel's ray; focal length and origin unchanged |
| Scene.RayCastSphere | source/tracer_main.cpp:89-104 | a reported hit has a positive parameter and a positive discriminant |
| Scene.HitIsSmallerRoot | source/tracer_main.cpp:96-103 | a reported hit comes from a nonzero direction, and its parameter is the smaller root `(-HalfB - sqrt(disc))/A` |
| Scene.HitIsNearestRoot | source/tracer_main.cpp:94-103 | with a true square root, a hit's parameter is a root of the quadratic and at most every other root |
| Scene.RayCastSphereHitIsOnSphere | source/tracer_main.cpp:94-103 | with a true square root, the point of a reported hit lies on the sphere |
| Scene.RayCastSphereHitIsNearest | source/tracer_main.cpp:94-103 | with a true square root, no point of the ray on the sphere comes before a reported hit |
| Scene.ScanCasts | source/tracer_main.cpp:157-171 | the scan's index is -1 or one of the meshes scanned |
| Scene.ScanCastsFindsFirstNearest | source/tracer_main.cpp:157-171 | -1 exactly when no hit is nearer than `MAX_F32`; otherwise the chosen cast hits at the reported `T`, no hit is nearer, and every earlier hit is strictly farther, so the first of equal minima wins |
| Scene.World.constructor | source/tracer_main.cpp:54-61 | an empty world: both counts zero and every slot zero |
| Scene.World.PushMaterial | source/tracer_main.cpp:63-71 | requires `MaterialCount < 1024`; returns the old count, increments it, stores the material there, and leaves every other slot and the meshes alone |
| Scene.World.PushSphere | source/tracer_main.cpp:73-81 | requires `MeshCount < 1024`; increments the count, stores the sphere and material index at the old count, and leaves every other slot and the materials alone |
| Scene.World.ClosestHit | source/tracer_main.cpp:157-171 | the mesh loop computes the scan over the pushed meshes |
| Paths.SkyColor | source/tracer_main.cpp:83-87 | for a direction with height in [-1, 1], the gradient colour lies in the unit cube |
| Paths.Attenuation | source/tracer_main.cpp:153-201 | the weight of bounce `k` is `0.5^k`, which lies in (0, 1] |
| Paths.Surface | source/tracer_main.cpp:173-193 | the hit branch never yields the sky |
| Paths.StepOutcome | source/tracer_main.cpp:157-199 | one pass yields the sky colour exactly when the scan finds no mesh; otherwise it yields the nearest mesh's albedo and makes three draws, and a ray that goes on leaves from the lifted point on the facing side of the surface |
| Paths.Bounces | source/tracer_main.cpp:155-202 | with `BounceCount <= 0` nothing is collected and nothing drawn; otherwise between one and `BounceCount` colours are collected |
| Paths.BouncesFirstStep | source/tracer_main.cpp:173-199 | a first miss yields only the sky colour and draws nothing; a first hit contributes the nearest mesh's albedo |
| Paths.BouncesUnfold | source/tracer_main.cpp:155-202 | the trace is the first pass followed, when the ray scatters, by the trace of the next ray with one bounce fewer |
| Paths.WeightedSumAppend | source/tracer_main.cpp:184-201 | one more contribution is added at the next halved weight |
| Paths.WeightedSumBound | source/tracer_main.cpp:152-202 | colours in the unit cube sum to at most `2 - 2*0.5^n` per channel |
| Tracing.BounceOnce | source/tracer_main.cpp:157-199 | one pass of the loop body is the first step of `Bounces`, with the series advanced accordingly |
| Tracing.Accumulate | source/tracer_main.cpp:184-201 | adding the scaled colour keeps `FinalColor` equal to the weighted sum, and halving `Scalar` gives the next weight |
| Tracing.TraceRay | source/tracer_main.cpp:146-205 | returns the weighted sum of what `Bounces` collects, and leaves the series in the state `Bounces` ends in |
| Accumulation.Resolve | source/tracer_jobs.cpp:16 | the displayed colour lies in the unit cube and equals the average when the average is already in it |
| Accumulation.AccumulatedAt | source/tracer_jobs.cpp:8-15 | each pixel of the range gains its own colour; every other pixel is unchanged |
| Accumulation.AccumulatedStep | source/tracer_jobs.cpp:14-15 | one more colour adds to the next pixel |
| Accumulation.DisplayedAt | source/tracer_jobs.cpp:16 | each pixel of the range shows its resolved accumulated colour; every other pixel is unchanged |
| Accumulation.DisplayedReadsRange | source/tracer_jobs.cpp:16 | the display written depends only on the accumulated pixels of the range |
| Accumulation.DisplayedStep | source/tracer_jobs.cpp:16 | resolving one more pixel after only that accumulated pixel changed |
| Accumulation.Advance | source/tracer_jobs.cpp:8-17 | one pass of the pixel loop extends the accumulated and displayed prefix by one pixel |
| Jobs.Span | source/tracer_jobs.cpp:8-10 | the job visits exactly the pixels `[Start, Start + Span)`, which are those of `[Start, End)` and none when `Start >= End` |
| Jobs.Sweep | source/tracer_jobs.cpp:8-17 | one colour per pixel of the range, and no draw for an empty range |
| Jobs.TracedIsSwept | source/tracer_jobs.cpp:8-17 | tracing pixel by pixel threads the series through the range's rays in order, adds each colour to its own pixel and resolves that pixel |
| Jobs.RunAdvancesSeries | source/tracer_jobs.cpp:8-17 | the series a job runs with ends where the sweep of its range does, whatever the buffers held |
| Jobs.RunWritesItsRange | source/tracer_jobs.cpp:8-17 | inside `[Start, End)` the pixel gains its traced colour and shows the resolved average; outside it both buffers are unchanged |
| Jobs.RunAll | source/tracer_jobs.cpp:28-34 | running no jobs changes nothing; the buffers keep their length |
| Jobs.RunAllAppend | source/tracer_jobs.cpp:28-34 | running one more job runs it on what the earlier ones left |
| Jobs.TracePixel | source/tracer_jobs.cpp:12-16 | one pass of the pixel loop takes the canvas from `n` traced pixels to `n + 1` |
| Jobs.TraceRays | source/tracer_jobs.cpp:5-18 | both buffers and the series end as `Run` of the job describes |
| Queues.PendingCount | source/tracer_jobs.cpp:28-30 | the count from head to tail is below 1024, zero exactly when head equals tail, and head moved on by it reaches tail |
| Queues.PendingCountPop | source/tracer_jobs.cpp:28-33 | moving the head on leaves one job fewer |
| Queues.PendingCountPush | source/tracer_jobs.cpp:77-79 | moving the tail on adds one job while fewer than 1023 are pending; with 1023 pending the count wraps to 0 |
| Queues.WindowPush | source/tracer_jobs.cpp:77-79 | writing at the tail and moving it on appends the job, unless 1023 were pending; then the queue reads as empty |
| Queues.WorkQueue.constructor | source/tracer_jobs.cpp:55-59 | both indices zero and nothing pending |
| Queues.WorkQueue.Push | source/tracer_jobs.cpp:75-80 | stores the job at the old tail, sets the tail to `(tail+1) % 1024`, leaves the head and every other slot alone, and appends to the pending jobs below capacity |
| Queues.WorkQueue.RunHead | source/tracer_jobs.cpp:30-33 | runs the job at the head, moves the head on by one slot mod 1024, and extends the jobs run by that job |
| Queues.WorkQueue.Drain | source/tracer_jobs.cpp:28-34 | runs exactly the pending jobs, in FIFO order, and ends with head == tail |
| Queues.SeededSlots | source/tracer_jobs.cpp:49-53 | the seeding loop writes slots `0 .. ThreadCount-1` |
| Queues.SeedingOverrunsStorage | source/tracer_jobs.cpp:44-53 | with 129 hardware threads the loop writes slot 128 of the 128-slot arrays |
| Queues.ThreadCountFor | source/tracer_jobs.cpp:44-47 | the thread count is the hardware count capped at 128 |
| Queues.CappedSeedingStaysInBounds | source/tracer_jobs.cpp:44-53 | with the cap, every seeded slot lies within the arrays, and at least one worker remains |
| Queues.JobSystem.IdleIffNothingPending | source/tracer_jobs.cpp:85-97 | every queue has head == tail exactly when no job is pending anywhere |
| Queues.JobSystem.constructor | source/tracer_jobs.cpp:41-66 | the capped thread count; the first `ThreadCount` series are seeded with their thread's two clock readings, the rest stay zero; every queue has head and tail at zero, so none has a pending job |
| Queues.JobSystem.QueueTraceRaysJobs | source/tracer_jobs.cpp:68-83 | pushes onto queue `ThreadIndex` only; every other queue keeps its indices and pending jobs |
| Queues.JobSystem.RunWorker | source/tracer_jobs.cpp:20-39 | the worker drains exactly its own pending jobs, with its own series, touching no other queue or series |
| Queues.JobSystem.AllJobsCompleted | source/tracer_jobs.cpp:85-97 | returns true exactly when head == tail for every queue below `ThreadCount` |
| Frame.PerThread | source/tracer_main.cpp:303 | `P*T <= PixelCount < (P+1)*T` |
| Frame.FrameJob | source/tracer_main.cpp:305-335 | every job carries the frame's settings and ends at or before `PixelCount` |
| Frame.Owner | source/tracer_main.cpp:303-335 | every pixel has an owning thread below `ThreadCount` |
| Frame.PartitionOwns | source/tracer_main.cpp:302-335 | a pixel lies in thread `k`'s range exactly when it is below `PixelCount` and `k` is its owner; so the ranges are disjoint and cover `[0, PixelCount)` |
| Frame.PartitionSizes | source/tracer_main.cpp:303-335 | each worker range holds `P` pixels and the inline range `P + PixelCount % T` |
| Frame.PaintStep | source/tracer_main.cpp:305-338 | one thread's job, on its own series, paints its own range, leaves the others alone and ends the series in the thread's final state; so the threads may run in any order |
| Frame.PaintedAll | source/tracer_main.cpp:302-338 | once every thread has run, every pixel has gained its owner's colour and shows the new average, and every thread's series is in its final state |
| Frame.PaintedAverage | source/tracer_main.cpp:302-340 | a whole frame run on a buffer holding the sum of earlier frames leaves the sum with this frame added, and the display shows the average of them all |
| Frame.FrameSamples | source/tracer_main.cpp:305-336 | one sample per pixel of the frame, each the colour the pixel's owner traces for it |
| Frame.SumsToAppend | source/tracer_jobs.cpp:14-15 | adding a frame's samples pixel by pixel to a buffer holding the sum of earlier frames gives the sum with that frame appended |
| Frame.AverageShown | source/tracer_jobs.cpp:16 | a display resolved with divisor `n` from a buffer holding the sum of `n` frames shows their average |
| Frame.FirstFrameShowsOneSample | source/tracer_main.cpp:395-398 | on the first frame after a clear, a pixel shows exactly its one traced colour, clamped |
| Frame.ClearedBuffer | source/tracer_main.cpp:253-255 | a new buffer of the given size with every pixel zero |
| Frame.SetUpWorld | source/tracer_main.cpp:272-279 | exactly the three materials and three spheres of the scene, in order |
| Frame.Tracer.constructor | source/tracer_main.cpp:253-296 | 1280 by 720 buffers with the accumulation cleared, a camera of focal length 1 at the origin, the scene, two bounces, frame 1, and the job system, with the tracer consistent and no frame accumulated yet; the buffers, camera, world and job system, with their arrays, series and queues, are newly allocated |
| Frame.Tracer.Enqueue | source/tracer_main.cpp:323 | pushes the job onto an empty worker queue, keeping the tracer consistent |
| Frame.Tracer.QueueWorkerJob | source/tracer_main.cpp:309-323 | queues worker `k`'s range on queue `k` |
| Frame.Tracer.QueueWorkerJobs | source/tracer_main.cpp:305-324 | after the loop, each worker below `T-1` has exactly its own job queued |
| Frame.Tracer.TraceMainRange | source/tracer_main.cpp:326-336 | the main thread traces the last range with series `T-1` |
| Frame.Tracer.DrainWorker | source/tracer_jobs.cpp:28-34 | worker `k` drains its one job with series `k`, painting its range |
| Frame.Tracer.RunWorkers | source/tracer_main.cpp:338 | once every worker has drained, every thread has run and every queue is empty |
| Frame.Tracer.TraceFrame | source/tracer_main.cpp:302-338 | the dispatch, the inline range and the drains together run every thread's job once |
| Frame.Tracer.TraceAndWait | source/tracer_main.cpp:302-338 | after the dispatch and the wait, each pixel has gained its owner's colour, the buffer holds the sum with this frame added, the display shows the average, and every series is in its final state |
| Frame.Tracer.RenderFrame | source/tracer_main.cpp:302-340 | each pixel gains its owner's traced colour; the frame's samples join the history since the last clear, the accumulation is their sum and FrameCount one more than their number, and the display shows their average; every thread's series ends in its final state; the queues end empty; FrameCount rises by one |
| Frame.Tracer.Restart | source/tracer_main.cpp:373-392 | back to frame 1 with the camera and both buffers at the new size, in fresh arrays; the camera keeps its focal length and origin |
| Frame.Tracer.EndFrame | source/tracer_main.cpp:371-398 | a size change sets FrameCount to 1 and resizes the camera and both buffers; otherwise they keep their count, rays and pixels; on frame 1 the accumulation is cleared and the history emptied, and otherwise both are left as they were; the accumulation stays the sum of the history; the camera keeps its focal length and origin |
| Frame.Tracer.FramePass | source/tracer_main.cpp:298-400 | one pass of the loop keeps the tracer consistent and the accumulation the sum of the history; after it the display shows the average of the history unless a resize restarted the count; at an unchanged size FrameCount rises by one; the camera keeps its focal length and origin |
| Frame.Tracer.RunFrames | source/tracer_main.cpp:298-402 | over any number of passes the tracer stays consistent and the accumulation the sum of the frames since the last clear; the display shows their average unless the last pass resized; the buffers take the last reported size; the camera keeps its focal length and origin; while the size never changes, the buffers keep it and FrameCount rises by one per pass |
| Frame.RunTracer | source/tracer_main.cpp:218-402 | setup followed by the frame loop: two bounces, a camera of focal length 1 at the origin, the accumulation the sum of the frames since the last clear and the display their average unless the last pass resized; the viewport ends at the last reported size, or 1280 by 720 when none was reported; at a constant 1280 by 720, FrameCount is one more than the number of passes |

## Left out

- Threads, mutexes, condition variables and the spin-wait (source/tracer_jobs.cpp:23-27, 36-37; source/tracer_main.cpp:338) are not modelled. A worker draining its queue is an explicit call, and the workers drain one after another. `Frame.PaintStep` shows the order does not matter, since the ranges and series of the threads are disjoint.
- `ShutdownJobSystem` is declared but never defined, and the `running` flag is never used, so neither is modelled.
- The thread pool, and the `std::thread` objects the second initialisation loop creates, are not modelled.
- Queue `ThreadCount-1` never receives jobs. In the source it is only zero-initialised; in the model every queue starts empty.
- Job pointers are not modelled. The world, camera, buffers and series a job points to are passed alongside the job. The series a drained job uses is that of the queue's own thread, which is the one the frame loop points it to.
- OpenGL, GLFW and ImGui: window setup, the resize callback, the texture copy and resize, and the settings sliders (source/tracer_main.cpp:344-369). A slider can set RayBounceCount or FrameCount between frames; the model keeps both fixed except where the frame loop changes them. A FrameCount moved by hand would break the link between FrameCount and the number of frames summed, so `Frame.Tracer.Averaging` holds only while the sliders are left alone.
- The window's close flag is not modelled: `Frame.Tracer.RunFrames` takes the sequence of viewport sizes the window reports, one per pass, and the loop ends when they run out.
- PNG export through stb and `NormalizedColorToColor8` are not modelled.
- Floating-point rounding, infinities and NaN are not modelled: values are reals.
- `sqrt` is a parameter, used by `Length`, `Normalize` and the sphere cast.
- The f64 to f32 conversion in `RandomCanonical` is not modelled.
- Scene.RayCastSphere: a zero ray direction, where the source divides by zero, is modelled as a miss with parameter 0.
- The SIMD twin `RayCastSphereFast` is modelled by the same formula as `RayCastSphere`.
- `RandomUnitV3`, `RandomInHemisphere`, `Abs` and the `_mm_*` bodies are not used by the core and are not modelled.
- `time()` seeding is replaced by parameters: each series takes a pair of readings, one for each of the two `time(nullptr)` calls.
- `hardware_concurrency()` is replaced by a parameter.
- Random.RandomSeries.RandomV3: C++ leaves the evaluation order of the three `RandomBetween` arguments unspecified; the model takes X, Y, Z.
- Frame.Tracer.RenderFrame: FrameCount is a `nat`, so its 32-bit wrap-around is not modelled.
- The 32-bit `PixelCount` product is unbounded in the model, and so are the `u32` pixel and ray indices.
- Scene.World.PushSphere: also requires `MaterialIndex < 1024`, which the source does not check. `TraceRay` reads `Materials[MaterialIndex]`, and this keeps that read within the table.
- Frame.Tracer.EndFrame: requires a viewport of at least 2 by 2, which `ResizeCamera` needs for its divisors. The source passes on whatever size the UI reports.
- Queues.JobSystem.constructor: requires at least two hardware threads. The source asserts against a single thread only in builds with `TRACER_ASSERTIONS` (source/tracer_core.h:28-42), and a count of zero wraps the `u32` worker count around; both are excluded here.
- The queue-overflow behaviour (a 1024th pending job empties the queue) is stated by `Queues.WorkQueue.Push`. The frame loop queues one job per worker per frame and never reaches it.

## Findings

| source | as written | input that shows it | evidently intended | confidence | as-written member | corrected member |
|---|---|---|---|---|---|---|
| source/tracer_jobs.cpp:44-53 | `ThreadCount` is `hardware_concurrency()` with no upper bound. The seeding loop writes `ThreadStorage[ThreadIndex]` for every thread, but `ThreadStorage`, `WorkQueue` and `ThreadPool` have 128 slots (source/tracer_jobs.h:48-50) | a machine reporting 129 hardware threads: the loop writes slot 128, past the end | the thread count capped at the 128 slots | not executed | Queues.SeedingOverrunsStorage | Queues.CappedSeedingStaysInBounds |
