/** The pinhole camera and its per-pixel primary rays (tracer_camera.cpp). */
module Cameras {
  import opened Vectors

  /** Horizontal viewport fraction of the sample point of column `x`. */
  function SampleU(x: nat, width: nat): (r: real)
    requires width >= 2
    ensures r > 0.0
    ensures r * (width - 1) as real == x as real + 0.5
  {
    (x as real + 0.5) * (1.0 / (width - 1) as real)
  }

  /** Vertical viewport fraction of the sample point of row `y`, row 0 at the top. */
  function SampleV(y: nat, height: nat): (r: real)
    requires height >= 2
    ensures r * (height - 1) as real == (height - y) as real - 0.5
    ensures y < height ==> r > 0.0
  {
    ((height - y) as real - 0.5) * (1.0 / (height - 1) as real)
  }

  /** Sample points are evenly spaced: one column right adds `1 / (width - 1)` of the
      viewport width, one row down removes `1 / (height - 1)` of its height. */
  lemma SamplesEvenlySpaced(x: nat, y: nat, width: nat, height: nat)
    requires width >= 2 && height >= 2
    ensures (SampleU(x + 1, width) - SampleU(x, width)) * (width - 1) as real == 1.0
    ensures (SampleV(y, height) - SampleV(y + 1, height)) * (height - 1) as real == 1.0
  {
    var w1, h1 := (width - 1) as real, (height - 1) as real;
    assert (SampleU(x + 1, width) - SampleU(x, width)) * w1 == SampleU(x + 1, width) * w1 - SampleU(x, width) * w1;
    assert (SampleV(y, height) - SampleV(y + 1, height)) * h1 == SampleV(y, height) * h1 - SampleV(y + 1, height) * h1;
  }

  /** The offset from the camera origin to the sample point of pixel (x, y). */
  function SampleOffset(origin: V3, lowerLeftCorner: V3, viewportSize: V2, width: nat, height: nat,
                        x: nat, y: nat): V3
    requires width >= 2 && height >= 2
  {
    var sampleP := V3(SampleU(x, width) * viewportSize.x, SampleV(y, height) * viewportSize.y, 0.0);
    Sub(Add(lowerLeftCorner, sampleP), origin)
  }

  /** The primary ray of pixel (x, y): from the origin towards the pixel's sample
      point, normalized; `sqrt` is the square root the length is taken with. */
  function PrimaryRay(origin: V3, lowerLeftCorner: V3, viewportSize: V2, width: nat, height: nat,
                      x: nat, y: nat, sqrt: real -> real): Ray
    requires width >= 2 && height >= 2
  {
    var toSample := SampleOffset(origin, lowerLeftCorner, viewportSize, width, height, x, y);
    Ray(origin, Normalize(toSample, Length(toSample, sqrt), Zero))
  }

  /** A primary ray starts at the camera origin and, scaled back by the length of the
      offset, points exactly at the pixel's sample point. */
  lemma PrimaryRayHitsSample(origin: V3, lowerLeftCorner: V3, viewportSize: V2, width: nat, height: nat,
                             x: nat, y: nat, sqrt: real -> real)
    requires width >= 2 && height >= 2
    ensures PrimaryRay(origin, lowerLeftCorner, viewportSize, width, height, x, y, sqrt).origin == origin
    ensures var d := SampleOffset(origin, lowerLeftCorner, viewportSize, width, height, x, y);
            Length(d, sqrt) > 0.0 ==>
              Scale(PrimaryRay(origin, lowerLeftCorner, viewportSize, width, height, x, y, sqrt).direction, Length(d, sqrt)) == d
  {
  }

  /** The first `n` entries of `rays` are the primary rays of their pixels, read back
      as column `i % width` and row `i / width`. Stated one index at a time so that
      the solver unfolds it only as far as a proof asks. */
  ghost predicate RaysUpTo(rays: seq<Ray>, n: nat, origin: V3, lowerLeftCorner: V3, viewportSize: V2,
                           width: nat, height: nat, sqrt: real -> real)
    requires width >= 2 && height >= 2 && n <= |rays|
    decreases n
  {
    n == 0 ||
    (RaysUpTo(rays, n - 1, origin, lowerLeftCorner, viewportSize, width, height, sqrt) &&
     rays[n - 1] == PrimaryRay(origin, lowerLeftCorner, viewportSize, width, height,
                               (n - 1) % width, (n - 1) / width, sqrt))
  }

  /** `RaysUpTo` depends only on the first `n` entries. */
  lemma {:induction false} RaysUpToFrame(a: seq<Ray>, b: seq<Ray>, n: nat, origin: V3, lowerLeftCorner: V3,
                                         viewportSize: V2, width: nat, height: nat, sqrt: real -> real)
    requires width >= 2 && height >= 2 && n <= |a| && n <= |b|
    requires forall i :: 0 <= i < n ==> a[i] == b[i]
    requires RaysUpTo(a, n, origin, lowerLeftCorner, viewportSize, width, height, sqrt)
    ensures RaysUpTo(b, n, origin, lowerLeftCorner, viewportSize, width, height, sqrt)
    decreases n
  {
    if n > 0 {
      RaysUpToFrame(a, b, n - 1, origin, lowerLeftCorner, viewportSize, width, height, sqrt);
    }
  }

  /** `RaysUpTo` as a statement about every index below `n`. */
  lemma {:induction false} RaysUpToEvery(rays: seq<Ray>, n: nat, origin: V3, lowerLeftCorner: V3,
                                         viewportSize: V2, width: nat, height: nat, sqrt: real -> real)
    requires width >= 2 && height >= 2 && n <= |rays|
    requires RaysUpTo(rays, n, origin, lowerLeftCorner, viewportSize, width, height, sqrt)
    ensures forall i :: 0 <= i < n ==>
              rays[i] == PrimaryRay(origin, lowerLeftCorner, viewportSize, width, height, i % width, i / width, sqrt)
    decreases n
  {
    if n > 0 {
      RaysUpToEvery(rays, n - 1, origin, lowerLeftCorner, viewportSize, width, height, sqrt);
    }
  }

  /** Writing the ray of pixel (x, y) at its index extends the aimed prefix by one. */
  lemma RaysUpToAim(before: seq<Ray>, after: seq<Ray>, x: nat, y: nat, origin: V3, lowerLeftCorner: V3,
                    viewportSize: V2, width: nat, height: nat, sqrt: real -> real)
    requires width >= 2 && height >= 2 && x < width
    requires GetPixelIndex(x, y, width) < |before|
    requires after == before[GetPixelIndex(x, y, width) :=
                             PrimaryRay(origin, lowerLeftCorner, viewportSize, width, height, x, y, sqrt)]
    requires RaysUpTo(before, GetPixelIndex(x, y, width), origin, lowerLeftCorner, viewportSize, width, height, sqrt)
    ensures RaysUpTo(after, GetPixelIndex(x, y, width) + 1, origin, lowerLeftCorner, viewportSize, width, height, sqrt)
  {
    var n := GetPixelIndex(x, y, width);
    PixelIndexRoundTrip(x, y, width);
    RaysUpToFrame(before, after, n, origin, lowerLeftCorner, viewportSize, width, height, sqrt);
  }

  /** One pass of the inner loop of `ResizeCamera`: the rays of row `y`, left to right,
      written after the rows above it. */
  method AimRow(buffer: array<Ray>, y: nat, o: V3, corner: V3, size: V2,
                width: nat, height: nat, sqrt: real -> real)
    requires width >= 2 && height >= 2 && y < height
    requires buffer.Length == width * height
    requires RaysUpTo(buffer[..], y * width, o, corner, size, width, height, sqrt)
    modifies buffer
    ensures y * width + width <= buffer.Length
    ensures RaysUpTo(buffer[..], y * width + width, o, corner, size, width, height, sqrt)
  {
    PixelIndexBound(width - 1, y, width, height);
    var x := 0;
    ghost var done := y * width;
    while x < width
      invariant 0 <= x <= width
      invariant done == y * width + x && done <= buffer.Length
      invariant RaysUpTo(buffer[..], done, o, corner, size, width, height, sqrt)
    {
      var pixelIndex := GetPixelIndex(x, y, width);
      ghost var before := buffer[..];
      buffer[pixelIndex] := PrimaryRay(o, corner, size, width, height, x, y, sqrt);
      RaysUpToAim(before, buffer[..], x, y, o, corner, size, width, height, sqrt);
      done := done + 1;
      x := x + 1;
    }
  }

  lemma NextRow(y: nat, width: nat)
    ensures (y + 1) * width == y * width + width
    ensures y * width == width * y
  {
  }

  /** The nested loop of `ResizeCamera`: rows top to bottom, each row left to right;
      afterwards every index holds the ray of the pixel it encodes. */
  method AimRays(buffer: array<Ray>, o: V3, corner: V3, size: V2,
                 width: nat, height: nat, sqrt: real -> real)
    requires width >= 2 && height >= 2
    requires buffer.Length == width * height
    modifies buffer
    ensures forall i :: 0 <= i < buffer.Length ==>
              buffer[i] == PrimaryRay(o, corner, size, width, height, i % width, i / width, sqrt)
  {
    var y := 0;
    ghost var done := 0;
    while y < height
      invariant 0 <= y <= height
      invariant done == y * width && done <= buffer.Length
      invariant RaysUpTo(buffer[..], done, o, corner, size, width, height, sqrt)
    {
      AimRow(buffer, y, o, corner, size, width, height, sqrt);
      NextRow(y, width);
      done := done + width;
      y := y + 1;
    }
    NextRow(height, width);
    RaysUpToEvery(buffer[..], done, o, corner, size, width, height, sqrt);
  }

  class Camera {
    var focalLength: real
    var aspectRatio: real
    var viewportSize: V2
    var origin: V3
    var lowerLeftCorner: V3
    var rayCount: nat
    var rays: array<Ray>

    ghost predicate Valid()
      reads this
    {
      rays.Length == rayCount
    }

    /** What `ResizeCamera(width, height)` establishes: the viewport geometry derived
        from the aspect ratio, and one primary ray per pixel, row-major. */
    ghost predicate ShowsViewport(width: nat, height: nat, sqrt: real -> real)
      requires width >= 2 && height >= 2
      reads this, rays
    {
      && Valid()
      && aspectRatio == width as real / height as real
      && viewportSize == V2(aspectRatio * 2.0, 2.0)
      && lowerLeftCorner == Sub(Sub(origin, V3(viewportSize.x * 0.5, viewportSize.y * 0.5, 0.0)),
                               V3(0.0, 0.0, focalLength))
      && rayCount == width * height
      && (forall i :: 0 <= i < rayCount ==>
            rays[i] == PrimaryRay(origin, lowerLeftCorner, viewportSize, width, height, i % width, i / width, sqrt))
    }

    /** Every primary ray starts at the camera origin, and each points at the sample
        point of the pixel its index encodes. */
    lemma RaysLeaveOrigin(width: nat, height: nat, sqrt: real -> real, i: nat)
      requires width >= 2 && height >= 2
      requires ShowsViewport(width, height, sqrt) && i < rayCount
      ensures rays[i].origin == origin
      ensures var d := SampleOffset(origin, lowerLeftCorner, viewportSize, width, height, i % width, i / width);
              Length(d, sqrt) > 0.0 ==> Scale(rays[i].direction, Length(d, sqrt)) == d
    {
      PrimaryRayHitsSample(origin, lowerLeftCorner, viewportSize, width, height, i % width, i / width, sqrt);
    }

    /** `InitializeCamera`: set the focal length and origin, then resize. */
    constructor (width: nat, height: nat, focalLength: real, origin: V3, sqrt: real -> real)
      requires width >= 2 && height >= 2
      ensures this.focalLength == focalLength && this.origin == origin
      ensures ShowsViewport(width, height, sqrt) && fresh(rays)
    {
      this.focalLength := focalLength;
      this.origin := origin;
      aspectRatio := 0.0;
      viewportSize := V2(0.0, 0.0);
      lowerLeftCorner := Zero;
      rayCount := 0;
      rays := new Ray[0];
      new;
      Resize(width, height, sqrt);
    }

    /** `ResizeCamera`: recompute the viewport from the new aspect ratio and re-aim
        one ray per pixel in a freshly allocated array. */
    method Resize(width: nat, height: nat, sqrt: real -> real)
      requires width >= 2 && height >= 2
      modifies this
      ensures focalLength == old(focalLength) && origin == old(origin)
      ensures ShowsViewport(width, height, sqrt) && fresh(rays)
    {
      var ratio := width as real / height as real;
      aspectRatio := ratio;
      var viewportHeight := 2.0;
      viewportSize := V2(ratio * viewportHeight, viewportHeight);
      var halfViewportSize := V2(viewportSize.x * 0.5, viewportSize.y * 0.5);
      lowerLeftCorner := Sub(Sub(origin, V3(halfViewportSize.x, halfViewportSize.y, 0.0)), V3(0.0, 0.0, focalLength));

      var count := width * height;
      rayCount := count;
      var buffer := new Ray[count];
      AimRays(buffer, origin, lowerLeftCorner, viewportSize, width, height, sqrt);
      rays := buffer;
    }
  }
}
