/** The two frame buffers a `TraceRays` job writes, as values: what the accumulation
    and display buffers hold once a job has drawn a run of colours in pixel order
    (tracer_jobs.cpp). */
module Accumulation {
  import opened Vectors

  /** The display value of an accumulated colour: the average over `frameCount`
      frames, clamped to the unit cube (no gamma is applied). */
  function Resolve(accumulated: V3, frameCount: nat): (r: V3)
    requires frameCount >= 1
    ensures InUnitCube(r)
    ensures InUnitCube(Scale(accumulated, 1.0 / frameCount as real)) ==> r == Scale(accumulated, 1.0 / frameCount as real)
  {
    var average := Scale(accumulated, 1.0 / frameCount as real);
    ClampV3InUnitCube(average);
    ClampV3(average, Splat(0.0), Splat(1.0))
  }

  /** The accumulation buffer after a job from `start` drew `colors`, one pixel at a
      time in order: each colour is added to its pixel. */
  function Accumulated(acc: seq<V3>, start: nat, colors: seq<V3>): (r: seq<V3>)
    requires |colors| > 0 ==> start + |colors| <= |acc|
    ensures |r| == |acc|
    decreases |colors|
  {
    if |colors| == 0 then acc
    else
      var n := |colors| - 1;
      Accumulated(acc, start, colors[..n])[start + n := Add(acc[start + n], colors[n])]
  }

  /** Each pixel of the job's range holds its old value plus its own colour; every
      other pixel keeps its old value. */
  lemma {:induction false} AccumulatedAt(acc: seq<V3>, start: nat, colors: seq<V3>, i: nat)
    requires |colors| > 0 ==> start + |colors| <= |acc|
    requires i < |acc|
    ensures start <= i < start + |colors| ==> Accumulated(acc, start, colors)[i] == Add(acc[i], colors[i - start])
    ensures !(start <= i < start + |colors|) ==> Accumulated(acc, start, colors)[i] == acc[i]
    decreases |colors|
  {
    if |colors| > 0 {
      var n := |colors| - 1;
      AccumulatedAt(acc, start, colors[..n], i);
    }
  }

  /** One more colour adds to the next pixel. */
  lemma AccumulatedStep(acc: seq<V3>, start: nat, colors: seq<V3>, color: V3)
    requires start + |colors| < |acc|
    ensures var p := start + |colors|;
            Accumulated(acc, start, colors + [color]) == Accumulated(acc, start, colors)[p := Add(acc[p], color)]
  {
    assert (colors + [color])[..|colors|] == colors;
  }

  /** The display buffer after a job resolved the `n` pixels from `start`, one at a
      time in order, from the accumulation buffer `acc`. */
  function Displayed(display: seq<V3>, acc: seq<V3>, start: nat, n: nat, frameCount: nat): (r: seq<V3>)
    requires frameCount >= 1 && |acc| == |display| && (n > 0 ==> start + n <= |acc|)
    ensures |r| == |display|
  {
    if n == 0 then display
    else Displayed(display, acc, start, n - 1, frameCount)[start + n - 1 := Resolve(acc[start + n - 1], frameCount)]
  }

  /** Each pixel of the job's range shows the resolved accumulated colour; every other
      pixel keeps its old value. */
  lemma {:induction false} DisplayedAt(display: seq<V3>, acc: seq<V3>, start: nat, n: nat, frameCount: nat, i: nat)
    requires frameCount >= 1 && |acc| == |display| && (n > 0 ==> start + n <= |acc|)
    requires i < |display|
    ensures start <= i < start + n ==> Displayed(display, acc, start, n, frameCount)[i] == Resolve(acc[i], frameCount)
    ensures !(start <= i < start + n) ==> Displayed(display, acc, start, n, frameCount)[i] == display[i]
  {
    if n > 0 {
      DisplayedAt(display, acc, start, n - 1, frameCount, i);
    }
  }

  /** The resolved pixels depend only on the accumulated pixels of the range. */
  lemma {:induction false} DisplayedReadsRange(display: seq<V3>, acc: seq<V3>, other: seq<V3>, start: nat, n: nat,
                                               frameCount: nat)
    requires frameCount >= 1 && |acc| == |display| == |other| && (n > 0 ==> start + n <= |acc|)
    requires forall i :: start <= i < start + n ==> acc[i] == other[i]
    ensures Displayed(display, acc, start, n, frameCount) == Displayed(display, other, start, n, frameCount)
  {
    if n > 0 {
      DisplayedReadsRange(display, acc, other, start, n - 1, frameCount);
    }
  }

  /** Resolving one more pixel, after the accumulation buffer changed only there. */
  lemma DisplayedStep(display: seq<V3>, acc: seq<V3>, next: seq<V3>, start: nat, n: nat, frameCount: nat, value: V3)
    requires frameCount >= 1 && |acc| == |display| && start + n < |acc|
    requires next == acc[start + n := value]
    ensures Displayed(display, next, start, n + 1, frameCount)
            == Displayed(display, acc, start, n, frameCount)[start + n := Resolve(value, frameCount)]
  {
    DisplayedReadsRange(display, acc, next, start, n, frameCount);
  }

  /** The two buffers once a job from `start` has drawn `colors`, starting from `acc0`
      and `display0`. */
  ghost predicate Written(acc: seq<V3>, display: seq<V3>, acc0: seq<V3>, display0: seq<V3>, start: nat,
                          colors: seq<V3>, frameCount: nat)
    requires frameCount >= 1 && |acc0| == |display0| && (|colors| > 0 ==> start + |colors| <= |acc0|)
  {
    && acc == Accumulated(acc0, start, colors)
    && display == Displayed(display0, acc, start, |colors|, frameCount)
  }

  /** Drawing one more colour: add it to the next pixel, then resolve that pixel. */
  lemma Advance(acc: seq<V3>, display: seq<V3>, acc0: seq<V3>, display0: seq<V3>, start: nat,
                colors: seq<V3>, color: V3, frameCount: nat)
    requires frameCount >= 1 && |acc0| == |display0| && start + |colors| < |acc0|
    requires Written(acc, display, acc0, display0, start, colors, frameCount)
    ensures var p := start + |colors|;
            var next := acc[p := Add(acc[p], color)];
            Written(next, display[p := Resolve(next[p], frameCount)], acc0, display0, start, colors + [color], frameCount)
  {
    var p := start + |colors|;
    AccumulatedAt(acc0, start, colors, p);
    AccumulatedStep(acc0, start, colors, color);
    var next := acc[p := Add(acc[p], color)];
    DisplayedStep(display0, acc, next, start, |colors|, frameCount, next[p]);
  }
}
