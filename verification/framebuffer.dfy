/** Frame buffers: a width, a height and a dense row-major pixel array
    (tracer_framebuffer.cpp). */
module FrameBuffers {
  import opened Vectors

  /** A buffer of `|s|` pixels, all set to the zero vector (what `memset(.., 0, ..)`
      leaves in an array of `v3`). */
  function Cleared(s: seq<V3>): (r: seq<V3>)
    ensures |r| == |s|
    ensures forall i :: 0 <= i < |r| ==> r[i] == Zero
  {
    seq(|s|, _ => Zero)
  }

  /** Clearing a cleared buffer changes nothing. */
  lemma ClearedIsIdempotent(s: seq<V3>)
    ensures Cleared(Cleared(s)) == Cleared(s)
  {
  }

  class FrameBuffer {
    var width: nat
    var height: nat
    var pixels: array<V3>

    ghost predicate Valid()
      reads this
    {
      pixels.Length == width * height
    }

    /** `InitializeFrameBuffer`: both sizes must be nonzero; the pixels are not zeroed. */
    constructor (width: nat, height: nat)
      requires width != 0 && height != 0
      ensures Valid() && fresh(pixels)
      ensures this.width == width && this.height == height
      ensures pixels.Length == width * height
    {
      this.width := width;
      this.height := height;
      pixels := new V3[width * height];
    }

    /** `ResizeFrameBuffer`: no check on the sizes. The pixel array is reallocated; as
        with `realloc`, the pixels the old and the new array have in common keep their
        values and the rest are unspecified. */
    method Resize(newWidth: nat, newHeight: nat)
      modifies this
      ensures Valid() && fresh(pixels)
      ensures width == newWidth && height == newHeight
      ensures pixels.Length == newWidth * newHeight
      ensures forall i :: 0 <= i < pixels.Length && i < old(pixels.Length) ==> pixels[i] == old(pixels[i])
    {
      var grown := new V3[newWidth * newHeight];
      var kept := if grown.Length < pixels.Length then grown.Length else pixels.Length;
      forall i | 0 <= i < kept {
        grown[i] := pixels[i];
      }
      width := newWidth;
      height := newHeight;
      pixels := grown;
    }

    /** `ClearFrameBuffer`: zero all `width * height` pixels; sizes and array unchanged. */
    method Clear()
      requires Valid()
      modifies pixels
      ensures Valid() && width == old(width) && height == old(height)
      ensures pixels[..] == Cleared(old(pixels[..]))
    {
      forall i | 0 <= i < pixels.Length {
        pixels[i] := Zero;
      }
    }
  }
}
