/** The fixed-size circular work queue of each worker thread and the job system that
    owns the queues and the per-thread random series (tracer_jobs.h, tracer_jobs.cpp).
    Threads are not modelled: a worker draining its queue is an explicit call of
    `WorkQueue.Drain`, and the series a drained job uses is passed in by the caller. */
module Queues {
  import opened Vectors
  import opened Random
  import opened Scene
  import opened FrameBuffers
  import opened Cameras
  import opened Jobs

  /** `ArrayCount(WorkQueue->Jobs)`. */
  const QueueCapacity: nat := 1024

  /** The length of `ThreadStorage`, `WorkQueue` and `ThreadPool`. */
  const MaxThreadCount: nat := 128

  /** The number of jobs on the ring from `head` up to, not including, `tail`. */
  function PendingCount(head: nat, tail: nat): (r: nat)
    requires head < QueueCapacity && tail < QueueCapacity
    ensures r < QueueCapacity
    ensures r == 0 <==> head == tail
    ensures (head + r) % QueueCapacity == tail
  {
    (tail - head) % QueueCapacity
  }

  /** Moving `head` on by one slot leaves one job fewer. */
  lemma PendingCountPop(head: nat, tail: nat)
    requires head < QueueCapacity && tail < QueueCapacity && head != tail
    ensures PendingCount((head + 1) % QueueCapacity, tail) == PendingCount(head, tail) - 1
  {
  }

  /** Moving `tail` on by one slot adds one job, unless the ring held 1023: then the
      count wraps to zero. */
  lemma PendingCountPush(head: nat, tail: nat)
    requires head < QueueCapacity && tail < QueueCapacity
    ensures PendingCount(head, tail) < QueueCapacity - 1 ==>
              PendingCount(head, (tail + 1) % QueueCapacity) == PendingCount(head, tail) + 1
    ensures PendingCount(head, tail) == QueueCapacity - 1 ==> PendingCount(head, (tail + 1) % QueueCapacity) == 0
  {
  }

  /** The `count` jobs on the ring `slots` from `head` on, oldest first. */
  function Window(slots: seq<Job>, head: nat, count: nat): (r: seq<Job>)
    requires |slots| == QueueCapacity && head < QueueCapacity
    ensures |r| == count
    decreases count
  {
    if count == 0 then [] else [slots[head]] + Window(slots, (head + 1) % QueueCapacity, count - 1)
  }

  /** A window ends with the slot `count - 1` places after its head. */
  lemma {:induction false} WindowSnoc(slots: seq<Job>, head: nat, count: nat)
    requires |slots| == QueueCapacity && head < QueueCapacity
    ensures Window(slots, head, count + 1) == Window(slots, head, count) + [slots[(head + count) % QueueCapacity]]
    decreases count
  {
    if count > 0 {
      var next := (head + 1) % QueueCapacity;
      WindowSnoc(slots, next, count - 1);
      assert (next + (count - 1)) % QueueCapacity == (head + count) % QueueCapacity;
    }
  }

  /** A window does not read the slots past its end, up to a full turn of the ring. */
  lemma {:induction false} WindowIgnores(slots: seq<Job>, head: nat, count: nat, slot: nat, job: Job)
    requires |slots| == QueueCapacity && head < QueueCapacity && slot < QueueCapacity
    requires count < QueueCapacity && (head + count) % QueueCapacity == slot
    ensures Window(slots[slot := job], head, count) == Window(slots, head, count)
    decreases count
  {
    if count > 0 {
      var next := (head + 1) % QueueCapacity;
      assert head != slot;
      WindowIgnores(slots, next, count - 1, slot, job);
    }
  }

  /** Writing a job at `tail` and moving `tail` on by one slot appends it, unless the
      ring already held 1023 jobs: then `tail` reaches `head` and the queue reads as
      empty, losing every job in it. */
  lemma WindowPush(slots: seq<Job>, head: nat, tail: nat, job: Job)
    requires |slots| == QueueCapacity && head < QueueCapacity && tail < QueueCapacity
    ensures var count := PendingCount(head, tail);
            var next := Window(slots[tail := job], head, PendingCount(head, (tail + 1) % QueueCapacity));
            && (count < QueueCapacity - 1 ==> next == Window(slots, head, count) + [job])
            && (count == QueueCapacity - 1 ==> next == [])
  {
    var count := PendingCount(head, tail);
    PendingCountPush(head, tail);
    if count < QueueCapacity - 1 {
      WindowSnoc(slots[tail := job], head, count);
      WindowIgnores(slots, head, count, tail, job);
    }
  }

  /** A `work_queue`: the ring of 1024 job slots and its two indices. The mutex, the
      condition variable and the unused `running` flag are not modelled. */
  class WorkQueue {
    var jobIndex: nat
    var tailJobIndex: nat
    const jobs: array<Job>

    ghost predicate Valid()
      reads this
    {
      jobs.Length == QueueCapacity && jobIndex < QueueCapacity && tailJobIndex < QueueCapacity
    }

    /** The jobs pushed and not yet run, oldest first. */
    ghost function Pending(): seq<Job>
      reads this, jobs
      requires Valid()
    {
      Window(jobs[..], jobIndex, PendingCount(jobIndex, tailJobIndex))
    }

    /** A value-initialised queue: both indices zero, every slot a zero job. */
    constructor ()
      ensures Valid() && fresh(jobs)
      ensures jobIndex == 0 && tailJobIndex == 0 && Pending() == []
    {
      jobIndex := 0;
      tailJobIndex := 0;
      jobs := new Job[QueueCapacity](_ => BlankJob);
    }

    /** The locked part of `QueueTraceRaysJobs`: store the job at the tail slot and move
        the tail on, wrapping at 1024. */
    method Push(job: Job)
      requires Valid()
      modifies this, jobs
      ensures Valid() && jobIndex == old(jobIndex)
      ensures tailJobIndex == (old(tailJobIndex) + 1) % QueueCapacity
      ensures jobs[..] == old(jobs[..])[old(tailJobIndex) := job]
      ensures |old(Pending())| < QueueCapacity - 1 ==> Pending() == old(Pending()) + [job]
      ensures |old(Pending())| == QueueCapacity - 1 ==> Pending() == []
    {
      WindowPush(jobs[..], jobIndex, tailJobIndex, job);
      var newTailJobIndex := (tailJobIndex + 1) % QueueCapacity;
      jobs[tailJobIndex] := job;
      tailJobIndex := newTailJobIndex;
    }

    /** One pass of the inner loop of `WorkerThread`: run the job at `JobIndex` with
        `series`, then move the index on by one slot. The jobs `ran` before it, from
        `canvas0`, gain this one; they and the jobs still pending make up `pending`. */
    method RunHead(world: World, camera: Camera, accumulation: FrameBuffer, display: FrameBuffer,
                   series: RandomSeries, sqrt: real -> real, ghost meshes: seq<Mesh>, ghost materials: seq<Material>,
                   ghost rays: seq<Ray>, ghost ran: seq<Job>, ghost pending: seq<Job>, ghost canvas0: Canvas)
                   returns (job: Job)
      requires Valid() && jobIndex != tailJobIndex && world.Valid()
      requires meshes == world.Meshes() && materials == world.materials[..] && rays == camera.rays[..]
      requires accumulation.pixels.Length == display.pixels.Length && accumulation.pixels != display.pixels
      requires |canvas0.acc| == |canvas0.display| == accumulation.pixels.Length
      requires AllRunnable(ran, |rays|, |canvas0.acc|) && AllRunnable(Pending(), |rays|, |canvas0.acc|)
      requires MaterialsResolve(meshes, materials) && ran + Pending() == pending
      requires Canvas(accumulation.pixels[..], display.pixels[..], series.shuffleTable)
               == RunAll(ran, rays, meshes, materials, sqrt, canvas0)
      modifies this, accumulation.pixels, display.pixels, series
      ensures Valid() && tailJobIndex == old(tailJobIndex) && ran + [job] + Pending() == pending
      ensures job == jobs[old(jobIndex)] && jobIndex == (old(jobIndex) + 1) % QueueCapacity
      ensures meshes == world.Meshes() && materials == world.materials[..] && rays == camera.rays[..]
      ensures AllRunnable(ran + [job], |rays|, |canvas0.acc|) && AllRunnable(Pending(), |rays|, |canvas0.acc|)
      ensures Canvas(accumulation.pixels[..], display.pixels[..], series.shuffleTable)
              == RunAll(ran + [job], rays, meshes, materials, sqrt, canvas0)
    {
      PendingCountPop(jobIndex, tailJobIndex);
      ghost var rest := Window(jobs[..], (jobIndex + 1) % QueueCapacity, PendingCount(jobIndex, tailJobIndex) - 1);
      assert Pending() == [jobs[jobIndex]] + rest;
      AllRunnableSplit(Pending(), |rays|, |canvas0.acc|);
      assert Pending()[1..] == rest;
      assert ran + [jobs[jobIndex]] + rest == pending;
      var newJobIndex := (jobIndex + 1) % QueueCapacity;
      job := jobs[jobIndex];
      RunAllAppend(ran, job, rays, meshes, materials, sqrt, canvas0);
      TraceRays(job, world, camera, accumulation, display, series, sqrt);
      jobIndex := newJobIndex;
    }

    /** The inner loop of `WorkerThread`: run the job at `JobIndex` and move the index
        on, until it meets the tail. Every job is run with `series`, the random series
        of the thread that owns this queue. */
    method Drain(world: World, camera: Camera, accumulation: FrameBuffer, display: FrameBuffer,
                 series: RandomSeries, sqrt: real -> real) returns (ghost ran: seq<Job>)
      requires Valid() && world.Valid() && accumulation.pixels.Length == display.pixels.Length
      requires accumulation.pixels != display.pixels
      requires AllRunnable(Pending(), camera.rays.Length, accumulation.pixels.Length)
      modifies this, accumulation.pixels, display.pixels, series
      ensures Valid() && jobIndex == tailJobIndex == old(tailJobIndex) && Pending() == []
      ensures ran == old(Pending()) && MaterialsResolve(world.Meshes(), world.materials[..])
      ensures Canvas(accumulation.pixels[..], display.pixels[..], series.shuffleTable)
              == RunAll(ran, camera.rays[..], world.Meshes(), world.materials[..], sqrt,
                        Canvas(old(accumulation.pixels[..]), old(display.pixels[..]), old(series.shuffleTable)))
    {
      ghost var meshes, materials, rays := world.Meshes(), world.materials[..], camera.rays[..];
      ghost var canvas0 := Canvas(accumulation.pixels[..], display.pixels[..], series.shuffleTable);
      ghost var pending := Pending();
      assert MaterialsResolve(meshes, materials);
      ran := [];
      assert ran + Pending() == pending;
      while jobIndex != tailJobIndex
        invariant Valid() && tailJobIndex == old(tailJobIndex)
        invariant meshes == world.Meshes() && materials == world.materials[..] && rays == camera.rays[..]
        invariant ran + Pending() == pending
        invariant AllRunnable(ran, |rays|, |canvas0.acc|) && AllRunnable(Pending(), |rays|, |canvas0.acc|)
        invariant |canvas0.acc| == |canvas0.display| == accumulation.pixels.Length
        invariant Canvas(accumulation.pixels[..], display.pixels[..], series.shuffleTable)
                  == RunAll(ran, rays, meshes, materials, sqrt, canvas0)
        decreases PendingCount(jobIndex, tailJobIndex)
      {
        var job := RunHead(world, camera, accumulation, display, series, sqrt, meshes, materials, rays, ran, pending,
                           canvas0);
        ran := ran + [job];
      }
    }
  }

  /** The `ThreadStorage` slots the seeding loop of `InitializeJobSystem` writes for a
      thread count, as written: one per hardware thread, with no bound. */
  function SeededSlots(threadCount: nat): (r: seq<nat>)
    ensures |r| == threadCount
    ensures forall k :: 0 <= k < |r| ==> r[k] == k
  {
    seq(threadCount, k => k)
  }

  /** On a machine with 129 hardware threads the loop writes slot 128, one past the end
      of the 128-slot arrays. */
  lemma SeedingOverrunsStorage()
    ensures var slots := SeededSlots(MaxThreadCount + 1);
            |slots| > MaxThreadCount && slots[MaxThreadCount] == MaxThreadCount
  {
  }

  /** The thread count the job system can hold: `hardware_concurrency()` capped at the
      128 slots of its arrays. */
  function ThreadCountFor(hardwareConcurrency: nat): (r: nat)
    ensures r <= MaxThreadCount
    ensures r <= hardwareConcurrency
    ensures hardwareConcurrency <= MaxThreadCount ==> r == hardwareConcurrency
  {
    if hardwareConcurrency <= MaxThreadCount then hardwareConcurrency else MaxThreadCount
  }

  /** With the cap, every seeded slot and every worker queue lies within the arrays,
      and a machine with at least two threads keeps at least one worker. */
  lemma CappedSeedingStaysInBounds(hardwareConcurrency: nat)
    requires hardwareConcurrency >= 2
    ensures var slots := SeededSlots(ThreadCountFor(hardwareConcurrency));
            forall k :: 0 <= k < |slots| ==> slots[k] < MaxThreadCount
    ensures ThreadCountFor(hardwareConcurrency) - 1 >= 1
  {
  }

  /** A `job_system`: the thread count, the per-thread random series and the per-worker
      queues. The thread pool is not modelled. */
  class JobSystem {
    const threadCount: nat
    const storage: seq<RandomSeries>
    const queues: seq<WorkQueue>

    ghost predicate Valid()
      reads this, queues
    {
      && 2 <= threadCount <= MaxThreadCount
      && |storage| == MaxThreadCount && |queues| == MaxThreadCount
      && (forall i, j :: 0 <= i < j < MaxThreadCount ==> storage[i] != storage[j])
      && (forall i, j :: 0 <= i < j < MaxThreadCount ==> queues[i] != queues[j] && queues[i].jobs != queues[j].jobs)
      && (forall i :: 0 <= i < MaxThreadCount ==> queues[i].Valid())
    }

    /** What `AllJobsCompleted` checks: every queue of the first `ThreadCount` has its
        `JobIndex` at its tail. */
    ghost predicate Completed()
      reads this, queues
      requires Valid()
    {
      forall i :: 0 <= i < threadCount ==> queues[i].jobIndex == queues[i].tailJobIndex
    }

    /** Every one of the 128 queues is empty. */
    ghost predicate Idle()
      reads this, queues
      requires Valid()
    {
      forall i :: 0 <= i < MaxThreadCount ==> queues[i].jobIndex == queues[i].tailJobIndex
    }

    /** The random state of every series, in slot order. */
    ghost function States(): (r: seq<State>)
      reads this, storage
      ensures |r| == |storage|
      ensures forall k :: 0 <= k < |storage| ==> r[k] == storage[k].shuffleTable
    {
      seq(|storage|, k requires 0 <= k < |storage| reads storage => storage[k].shuffleTable)
    }

    /** The jobs pending on every queue, in slot order. */
    ghost function Pendings(): (r: seq<seq<Job>>)
      reads this, queues, set q <- queues :: q.jobs
      requires Valid()
      ensures |r| == MaxThreadCount
      ensures forall k :: 0 <= k < MaxThreadCount ==> r[k] == queues[k].Pending()
    {
      seq(MaxThreadCount, k requires 0 <= k < MaxThreadCount && queues[k].Valid()
                             reads queues, set q <- queues :: q.jobs => queues[k].Pending())
    }

    /** Every queue reads as empty exactly when no job is pending anywhere. */
    lemma IdleIffNothingPending()
      requires Valid()
      ensures Idle() <==> Pendings() == seq(MaxThreadCount, _ => [])
    {
      if Idle() {
        assert forall k :: 0 <= k < MaxThreadCount ==> Pendings()[k] == [];
      }
      if Pendings() == seq(MaxThreadCount, _ => []) {
        forall k | 0 <= k < MaxThreadCount
          ensures queues[k].jobIndex == queues[k].tailJobIndex
        {
          assert |queues[k].Pending()| == 0;
        }
      }
    }

    /** `new job_system {}` followed by `InitializeJobSystem`: the thread count is the
        capped hardware thread count, which the source asserts leaves at least one
        worker; each of its series is seeded with that thread's two clock readings and
        the other series stay zero; every queue has both indices at zero. */
    constructor (hardwareConcurrency: nat, seeds: seq<(bv64, bv64)>)
      requires hardwareConcurrency >= 2 && |seeds| == ThreadCountFor(hardwareConcurrency)
      ensures Valid() && Idle() && threadCount == ThreadCountFor(hardwareConcurrency)
      ensures forall i :: 0 <= i < threadCount ==> storage[i].shuffleTable == Seeded(seeds[i].0, seeds[i].1)
      ensures forall i :: 0 <= i < MaxThreadCount ==> queues[i].jobIndex == queues[i].tailJobIndex == 0
      ensures forall i :: threadCount <= i < MaxThreadCount ==> storage[i].shuffleTable == State(0, 0)
      ensures forall i :: 0 <= i < MaxThreadCount ==> fresh(storage[i]) && fresh(queues[i]) && fresh(queues[i].jobs)
    {
      var count := ThreadCountFor(hardwareConcurrency);
      var series: seq<RandomSeries> := [];
      var workQueues: seq<WorkQueue> := [];
      for k := 0 to MaxThreadCount
        invariant |series| == k && |workQueues| == k
        invariant forall i :: 0 <= i < k ==> fresh(series[i]) && fresh(workQueues[i]) && fresh(workQueues[i].jobs)
        invariant forall i :: 0 <= i < k && i < count ==> series[i].shuffleTable == Seeded(seeds[i].0, seeds[i].1)
        invariant forall i :: count <= i < k ==> series[i].shuffleTable == State(0, 0)
        invariant forall i :: 0 <= i < k ==> workQueues[i].Valid()
        invariant forall i :: 0 <= i < k ==> workQueues[i].jobIndex == workQueues[i].tailJobIndex == 0
        invariant forall i, j :: 0 <= i < j < k ==> series[i] != series[j]
        invariant forall i, j :: 0 <= i < j < k ==> workQueues[i] != workQueues[j]
        invariant forall i, j :: 0 <= i < j < k ==> workQueues[i].jobs != workQueues[j].jobs
      {
        // A zero slot is what `job_system {}` leaves; the first `ThreadCount` slots
        // are then seeded by `RandomSeries()`.
        var readings := if k < count then seeds[k] else (0, 0);
        var slot := new RandomSeries(readings.0, readings.1);
        var queue := new WorkQueue();
        series := series + [slot];
        workQueues := workQueues + [queue];
      }
      threadCount := count;
      storage := series;
      queues := workQueues;
    }

    /** `QueueTraceRaysJobs`: push `job` onto the queue of worker `threadIndex`; every
        other queue is left as it was. */
    method QueueTraceRaysJobs(threadIndex: nat, job: Job)
      requires Valid() && threadIndex < MaxThreadCount
      modifies queues[threadIndex], queues[threadIndex].jobs
      ensures Valid()
      ensures |old(queues[threadIndex].Pending())| < QueueCapacity - 1 ==>
                queues[threadIndex].Pending() == old(queues[threadIndex].Pending()) + [job]
      ensures |old(queues[threadIndex].Pending())| == QueueCapacity - 1 ==> queues[threadIndex].Pending() == []
      ensures queues[threadIndex].jobIndex == old(queues[threadIndex].jobIndex)
      ensures forall i :: 0 <= i < MaxThreadCount && i != threadIndex ==>
                queues[i].jobIndex == old(queues[i].jobIndex) && queues[i].tailJobIndex == old(queues[i].tailJobIndex)
                && queues[i].Pending() == old(queues[i].Pending())
      ensures Pendings() == old(Pendings())[threadIndex := queues[threadIndex].Pending()]
    {
      queues[threadIndex].Push(job);
    }

    /** `WorkerThread` for worker `threadIndex` once woken: drain its queue. The jobs
        queued on it all point to the series of that thread, so the queue is drained
        with it. The other queues and series are left alone. */
    method RunWorker(threadIndex: nat, world: World, camera: Camera, accumulation: FrameBuffer, display: FrameBuffer,
                     sqrt: real -> real) returns (ghost ran: seq<Job>)
      requires Valid() && threadIndex < MaxThreadCount && world.Valid()
      requires accumulation.pixels.Length == display.pixels.Length && accumulation.pixels != display.pixels
      requires AllRunnable(queues[threadIndex].Pending(), camera.rays.Length, accumulation.pixels.Length)
      modifies queues[threadIndex], accumulation.pixels, display.pixels, storage[threadIndex]
      ensures Valid() && ran == old(Pendings())[threadIndex]
      ensures Pendings() == old(Pendings())[threadIndex := []]
      ensures States() == old(States())[threadIndex := storage[threadIndex].shuffleTable]
      ensures MaterialsResolve(world.Meshes(), world.materials[..])
      ensures Canvas(accumulation.pixels[..], display.pixels[..], storage[threadIndex].shuffleTable)
              == RunAll(ran, camera.rays[..], world.Meshes(), world.materials[..], sqrt,
                        Canvas(old(accumulation.pixels[..]), old(display.pixels[..]),
                               old(storage[threadIndex].shuffleTable)))
    {
      ran := queues[threadIndex].Drain(world, camera, accumulation, display, storage[threadIndex], sqrt);
    }

    /** `AllJobsCompleted`: scan the queues of the first `ThreadCount` threads and
        report false at the first one whose `JobIndex` is not at its tail. */
    method AllJobsCompleted() returns (done: bool)
      requires Valid()
      ensures done <==> Completed()
    {
      for threadIndex := 0 to threadCount
        invariant forall i :: 0 <= i < threadIndex ==> queues[i].jobIndex == queues[i].tailJobIndex
      {
        var workQueue := queues[threadIndex];
        if workQueue.jobIndex != workQueue.tailJobIndex {
          return false;
        }
      }
      return true;
    }
  }
}
