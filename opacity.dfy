/** The opacity pass: when the opacity slider is below 100 percent, every
    alpha value of the resized watermark is scaled by the opacity and
    truncated; the colour channels are left alone. */
module Opacity {
  import Arith

  /** An 8-bit channel value. */
  newtype byte = x: int | 0 <= x < 256

  datatype Pixel = Rgba(r: byte, g: byte, b: byte, a: byte)

  /** One alpha value scaled by `opacity` percent, truncated. */
  function Fade(p: byte, opacity: int): (q: byte)
    requires 0 <= opacity <= 100
    ensures q as int * 100 <= p as int * opacity < (q as int + 1) * 100
    ensures q <= p
    ensures opacity == 0 ==> q == 0
  {
    Arith.MulMonotone(p as int, opacity, 100);
    (p as int * opacity / 100) as byte
  }

  /** The pixels after the opacity pass: alpha faded when `opacity < 100`,
      the buffer as it was otherwise. */
  function WithOpacity(s: seq<Pixel>, opacity: int): (t: seq<Pixel>)
    requires 0 <= opacity <= 100
    ensures |t| == |s|
    ensures forall i :: 0 <= i < |s| ==> t[i].r == s[i].r && t[i].g == s[i].g && t[i].b == s[i].b
    ensures forall i :: 0 <= i < |s| ==> t[i].a <= s[i].a
    ensures opacity == 100 ==> t == s
    ensures opacity < 100 ==> forall i :: 0 <= i < |s| ==> t[i].a as int * 100 <= s[i].a as int * opacity < (t[i].a as int + 1) * 100
  {
    if opacity < 100 then seq(|s|, i requires 0 <= i < |s| => s[i].(a := Fade(s[i].a, opacity))) else s
  }

  /** The pass over the watermark's pixel buffer, in place. */
  method ApplyOpacity(pixels: array<Pixel>, opacity: int)
    requires 0 <= opacity <= 100
    modifies pixels
    ensures pixels[..] == WithOpacity(old(pixels[..]), opacity)
  {
    if opacity < 100 {
      var i := 0;
      while i < pixels.Length
        invariant 0 <= i <= pixels.Length
        invariant forall k :: 0 <= k < i ==> pixels[k] == old(pixels[k]).(a := Fade(old(pixels[k]).a, opacity))
        invariant forall k :: i <= k < pixels.Length ==> pixels[k] == old(pixels[k])
      {
        pixels[i] := pixels[i].(a := Fade(pixels[i].a, opacity));
        i := i + 1;
      }
    }
  }

  /** A higher opacity never gives a lower alpha value. */
  lemma FadeMonotone(p: byte, o1: int, o2: int)
    requires 0 <= o1 <= o2 <= 100
    ensures Fade(p, o1) <= Fade(p, o2)
  {
    Arith.MulMonotone(p as int, o1, o2);
    var q1, q2 := Fade(p, o1) as int, Fade(p, o2) as int;
    Arith.MulCancelLess(q1, q2 + 1, 100);
  }

  /** Pixel by pixel, the pass is monotone in the opacity, so a buffer faded
      at a lower opacity is nowhere more opaque. */
  lemma WithOpacityMonotone(s: seq<Pixel>, o1: int, o2: int)
    requires 0 <= o1 <= o2 <= 100
    ensures forall i :: 0 <= i < |s| ==> WithOpacity(s, o1)[i].a <= WithOpacity(s, o2)[i].a
  {
    forall i | 0 <= i < |s|
      ensures WithOpacity(s, o1)[i].a <= WithOpacity(s, o2)[i].a
    {
      if o2 < 100 {
        FadeMonotone(s[i].a, o1, o2);
      }
    }
  }

  /** Opacity 0 makes the whole watermark transparent and keeps its colours. */
  lemma ZeroOpacityClears(s: seq<Pixel>)
    ensures forall i :: 0 <= i < |s| ==> WithOpacity(s, 0)[i] == s[i].(a := 0)
  {
  }

  /** Half opacity halves every alpha value, truncated: a fully opaque pixel
      becomes 127. */
  lemma HalfOpacityScenario(s: seq<Pixel>)
    ensures forall i :: 0 <= i < |s| ==> WithOpacity(s, 50)[i].a == s[i].a / 2
  {
  }
}
