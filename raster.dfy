// Raster images and the per-pixel alpha compositor (overlay_png).
//
// An image is a three-dimensional array indexed [row, column, channel], as a
// numpy image is: a person photograph has 3 colour channels, a garment image
// has 3 colour channels followed by an 8-bit alpha channel.

module Raster {
  import opened Numeric

  /** The value of one uint8 channel of a pixel. */
  type Byte = b: int | 0 <= b <= 255

  /** The exact convex mix (1 - a/255) * before + (a/255) * src, over the rationals. */
  function Mix(before: Byte, src: Byte, alpha: Byte): real
  {
    (1.0 - alpha as real / 255.0) * before as real + (alpha as real / 255.0) * src as real
  }

  /** The mixed value as it is stored back into a uint8 channel: the exact mix,
      rounded down (the store truncates, and the mix is never negative). */
  function BlendChannel(before: Byte, src: Byte, alpha: Byte): (v: Byte)
    ensures v as real <= Mix(before, src, alpha) < v as real + 1.0
    ensures Min(before, src) <= v <= Max(before, src)
    ensures alpha == 255 ==> v == src
    ensures alpha == 0 ==> v == before
  {
    var n := (255 - alpha) * before + alpha * src;
    MixIsScaledSum(before, src, alpha);
    MixWithin(before, src, alpha);
    n / 255
  }

  /** The exact mix is the integer weighted sum divided by 255. */
  lemma MixIsScaledSum(before: Byte, src: Byte, alpha: Byte)
    ensures Mix(before, src, alpha) == ((255 - alpha) * before + alpha * src) as real / 255.0
  {
    var a, b, s := alpha as real, before as real, src as real;
    calc {
      Mix(before, src, alpha);
      (1.0 - a / 255.0) * b + (a / 255.0) * s;
      ((255.0 - a) * b + a * s) / 255.0;
    }
  }

  /** The weighted sum lies between 255 times the smaller and 255 times the larger value. */
  lemma MixWithin(before: Byte, src: Byte, alpha: Byte)
    ensures 255 * Min(before, src) <= (255 - alpha) * before + alpha * src <= 255 * Max(before, src)
  {
    var lo, hi := Min(before, src), Max(before, src);
    assert (255 - alpha) * before >= (255 - alpha) * lo;
    assert alpha * src >= alpha * lo;
    assert (255 - alpha) * before <= (255 - alpha) * hi;
    assert alpha * src <= alpha * hi;
  }

  /** The target pixel (r, c) lies under the garment drawn with its top-left corner at (x, y). */
  predicate InFootprint(fg: array3<Byte>, x: int, y: int, r: int, c: int)
  {
    y <= r < y + fg.Length0 && x <= c < x + fg.Length1
  }

  /** The pixel (r, c) is under a garment pixel whose alpha is not zero. */
  predicate Drawn(fg: array3<Byte>, x: int, y: int, r: int, c: int)
    requires fg.Length2 == 4
    reads fg
  {
    InFootprint(fg, x, y, r, c) && fg[r - y, c - x, 3] > 0
  }

  /** Channel k of background pixel (r, c), whose value was `before`, once the
      garment has been composited at (x, y). */
  function OverlayPixel(before: Byte, fg: array3<Byte>, x: int, y: int, r: int, c: int, k: int): (v: Byte)
    requires fg.Length2 == 4 && 0 <= k < 3
    reads fg
    ensures !Drawn(fg, x, y, r, c) ==> v == before
    ensures Drawn(fg, x, y, r, c) && fg[r - y, c - x, 3] == 255 ==> v == fg[r - y, c - x, k]
    ensures Min(before, if InFootprint(fg, x, y, r, c) then fg[r - y, c - x, k] else before) <= v
    ensures v <= Max(before, if InFootprint(fg, x, y, r, c) then fg[r - y, c - x, k] else before)
  {
    if Drawn(fg, x, y, r, c) then BlendChannel(before, fg[r - y, c - x, k], fg[r - y, c - x, 3])
    else before
  }

  /** The garment row i has been processed completely when i < rows, and row `rows`
      up to column `cols` (exclusive), in the row-major order of the loops. */
  ghost predicate Visited(fg: array3<Byte>, x: int, y: int, r: int, c: int, rows: int, cols: int)
  {
    var i, j := r - y, c - x;
    (0 <= i < rows && 0 <= j < fg.Length1) || (i == rows && 0 <= j < cols)
  }

  /** What pixel (r, c) holds once the loops have visited (rows, cols). */
  ghost function PartialPixel(before: Byte, fg: array3<Byte>, x: int, y: int, r: int, c: int, k: int,
                              rows: int, cols: int): Byte
    requires fg.Length2 == 4 && 0 <= k < 3
    reads fg
  {
    if Visited(fg, x, y, r, c, rows, cols) then OverlayPixel(before, fg, x, y, r, c, k) else before
  }

  /** Composites the 4-channel garment `fg` onto the 3-channel image `bg` in place,
      with the garment's top-left corner at column x, row y, and returns `bg`.
      Garment pixels that fall outside `bg` are skipped, as are fully
      transparent ones; every other covered pixel becomes the blend of the two. */
  method Overlay(bg: array3<Byte>, fg: array3<Byte>, x: int, y: int) returns (out: array3<Byte>)
    requires bg.Length2 == 3 && fg.Length2 == 4
    modifies bg
    ensures out == bg
    ensures forall r, c, k :: 0 <= r < bg.Length0 && 0 <= c < bg.Length1 && 0 <= k < 3 ==>
              bg[r, c, k] == OverlayPixel(old(bg[r, c, k]), fg, x, y, r, c, k)
  {
    for i := 0 to fg.Length0
      invariant forall r, c, k :: 0 <= r < bg.Length0 && 0 <= c < bg.Length1 && 0 <= k < 3 ==>
                  bg[r, c, k] == PartialPixel(old(bg[r, c, k]), fg, x, y, r, c, k, i, 0)
    {
      for j := 0 to fg.Length1
        invariant forall r, c, k :: 0 <= r < bg.Length0 && 0 <= c < bg.Length1 && 0 <= k < 3 ==>
                    bg[r, c, k] == PartialPixel(old(bg[r, c, k]), fg, x, y, r, c, k, i, j)
      {
        if y + i >= bg.Length0 || x + j >= bg.Length1 || x + j < 0 || y + i < 0 {
          continue;
        }
        var alpha := fg[i, j, 3];
        if alpha > 0 {
          bg[y + i, x + j, 0], bg[y + i, x + j, 1], bg[y + i, x + j, 2] :=
            BlendChannel(bg[y + i, x + j, 0], fg[i, j, 0], alpha),
            BlendChannel(bg[y + i, x + j, 1], fg[i, j, 1], alpha),
            BlendChannel(bg[y + i, x + j, 2], fg[i, j, 2], alpha);
        }
      }
    }
    out := bg;
  }

  /** A fresh image with the same dimensions and pixels as `src` (numpy's copy()). */
  method Copy(src: array3<Byte>) returns (dst: array3<Byte>)
    ensures fresh(dst)
    ensures dst.Length0 == src.Length0 && dst.Length1 == src.Length1 && dst.Length2 == src.Length2
    ensures forall r, c, k :: 0 <= r < src.Length0 && 0 <= c < src.Length1 && 0 <= k < src.Length2 ==>
              dst[r, c, k] == src[r, c, k]
  {
    dst := new Byte[src.Length0, src.Length1, src.Length2](
      (r, c, k) reads src requires 0 <= r < src.Length0 && 0 <= c < src.Length1 && 0 <= k < src.Length2 =>
        src[r, c, k]);
  }

  /** A fully transparent garment leaves every pixel as it was. */
  lemma TransparentKeeps(before: Byte, fg: array3<Byte>, x: int, y: int, r: int, c: int, k: int)
    requires fg.Length2 == 4 && 0 <= k < 3
    requires forall i, j :: 0 <= i < fg.Length0 && 0 <= j < fg.Length1 ==> fg[i, j, 3] == 0
    ensures OverlayPixel(before, fg, x, y, r, c, k) == before
  {
    if InFootprint(fg, x, y, r, c) {
      assert fg[r - y, c - x, 3] == 0;
    }
  }
}
