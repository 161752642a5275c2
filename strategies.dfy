// The three try-on strategies (tryon_top, tryon_bottom, tryon_full): each places
// the garment, takes the garment already resized to the placement's width and
// height, and composites it onto a copy of the person image.

module Strategies {
  import opened Raster
  import opened Placement

  /** The garment has the size the placement asks the resize step for. */
  predicate FitsRect(garment: array3<Byte>, r: Rect)
  {
    0 < r.width && 0 < r.height && garment.Length0 == r.height && garment.Length1 == r.width
  }

  /** Composites `garment` onto a fresh copy of `person` with its top-left corner
      at (left, top); `person` itself is not modified. */
  method Composite(person: array3<Byte>, garment: array3<Byte>, left: int, top: int)
    returns (out: array3<Byte>)
    requires person.Length2 == 3 && garment.Length2 == 4
    ensures fresh(out)
    ensures out.Length0 == person.Length0 && out.Length1 == person.Length1 && out.Length2 == 3
    ensures forall r, c, k :: 0 <= r < person.Length0 && 0 <= c < person.Length1 && 0 <= k < 3 ==>
              out[r, c, k] == OverlayPixel(person[r, c, k], garment, left, top, r, c, k)
  {
    var canvas := Copy(person);
    out := Overlay(canvas, garment, left, top);
  }

  method TryOnTop(person: array3<Byte>, garment: array3<Byte>, lm: Landmarks, shoulderWidth: real)
    returns (out: array3<Byte>)
    requires person.Length2 == 3 && garment.Length2 == 4
    requires IsDistance(shoulderWidth, lm.leftShoulder, lm.rightShoulder)
    requires FitsRect(garment, PlaceTop(lm, shoulderWidth))
    ensures fresh(out)
    ensures out.Length0 == person.Length0 && out.Length1 == person.Length1 && out.Length2 == 3
    ensures var p := PlaceTop(lm, shoulderWidth);
      forall r, c, k :: 0 <= r < person.Length0 && 0 <= c < person.Length1 && 0 <= k < 3 ==>
        out[r, c, k] == OverlayPixel(person[r, c, k], garment, p.x, p.y, r, c, k)
  {
    var p := PlaceTop(lm, shoulderWidth);
    out := Composite(person, garment, p.x, p.y);
  }

  method TryOnBottom(person: array3<Byte>, garment: array3<Byte>, lm: Landmarks, hipWidth: real)
    returns (out: array3<Byte>)
    requires person.Length2 == 3 && garment.Length2 == 4
    requires IsDistance(hipWidth, lm.leftHip, lm.rightHip)
    requires FitsRect(garment, PlaceBottom(lm, hipWidth))
    ensures fresh(out)
    ensures out.Length0 == person.Length0 && out.Length1 == person.Length1 && out.Length2 == 3
    ensures var p := PlaceBottom(lm, hipWidth);
      forall r, c, k :: 0 <= r < person.Length0 && 0 <= c < person.Length1 && 0 <= k < 3 ==>
        out[r, c, k] == OverlayPixel(person[r, c, k], garment, p.x, p.y, r, c, k)
  {
    var p := PlaceBottom(lm, hipWidth);
    out := Composite(person, garment, p.x, p.y);
  }

  /** The full-body anchor depends on the person image's height (its first dimension). */
  method TryOnFull(person: array3<Byte>, garment: array3<Byte>, lm: Landmarks,
                   shoulderWidth: real, hipWidth: real)
    returns (out: array3<Byte>)
    requires person.Length2 == 3 && garment.Length2 == 4
    requires IsDistance(shoulderWidth, lm.leftShoulder, lm.rightShoulder)
    requires IsDistance(hipWidth, lm.leftHip, lm.rightHip)
    requires FitsRect(garment, PlaceFull(lm, shoulderWidth, hipWidth, person.Length0))
    ensures fresh(out)
    ensures out.Length0 == person.Length0 && out.Length1 == person.Length1 && out.Length2 == 3
    ensures var p := PlaceFull(lm, shoulderWidth, hipWidth, person.Length0);
      forall r, c, k :: 0 <= r < person.Length0 && 0 <= c < person.Length1 && 0 <= k < 3 ==>
        out[r, c, k] == OverlayPixel(person[r, c, k], garment, p.x, p.y, r, c, k)
  {
    var p := PlaceFull(lm, shoulderWidth, hipWidth, person.Length0);
    out := Composite(person, garment, p.x, p.y);
  }
}
