// Garment placement: how each try-on strategy turns body landmarks into the
// rectangle (top-left corner, width, height) the resized garment is drawn in.
//
// Landmarks are integer pixel points. The Euclidean distance between two
// landmarks is passed in as a real number that must be that distance; the
// heuristic ratios are exact rationals; int() truncates toward zero and the
// floor division by 2 is Dafny's `/`, which agrees with it for a positive divisor.

module Placement {
  import opened Numeric

  datatype Point2D = Point2D(x: int, y: int)

  /** The named points the pose detector provides for one person. */
  datatype Landmarks = Landmarks(
    leftShoulder: Point2D, rightShoulder: Point2D,
    leftHip: Point2D, rightHip: Point2D,
    leftAnkle: Point2D, rightAnkle: Point2D,
    nose: Point2D)

  /** Where the resized garment is drawn: top-left corner (x, y) and its size. */
  datatype Rect = Rect(x: int, y: int, width: int, height: int)

  /** d is the Euclidean distance between p and q (numpy's norm of their difference). */
  ghost predicate IsDistance(d: real, p: Point2D, q: Point2D)
  {
    var dx, dy := q.x - p.x, q.y - p.y;
    0.0 <= d && d * d == (dx * dx + dy * dy) as real
  }

  /** The distance between two points is determined by them. */
  lemma DistanceUnique(d: real, e: real, p: Point2D, q: Point2D)
    requires IsDistance(d, p, q) && IsDistance(e, p, q)
    ensures d == e
  {
    if d != e {
      if d < e { SquareStrict(d, e); } else { SquareStrict(e, d); }
      assert false;
    }
  }

  lemma SquareStrict(a: real, b: real)
    requires 0.0 <= a < b
    ensures a * a < b * b
  {
    var low, mid, high := a * a, a * b, b * b;
    assert low <= mid;
    assert mid < high;
  }

  /** For two points on the same row the distance is the horizontal gap. */
  lemma HorizontalDistance(p: Point2D, q: Point2D)
    requires p.y == q.y
    ensures IsDistance(if p.x <= q.x then (q.x - p.x) as real else (p.x - q.x) as real, p, q)
  {
  }

  /** The horizontal midpoint of two points, rounded down. */
  function CenterX(p: Point2D, q: Point2D): int { Half(p.x + q.x) }

  /** The vertical midpoint of two points, rounded down. */
  function CenterY(p: Point2D, q: Point2D): int { Half(p.y + q.y) }

  /** Upper-body garment (tryon_top): 1.6 shoulder widths wide, from the nose to the
      left hip tall, centred on the shoulders and pushed down 12% of its height. */
  function PlaceTop(lm: Landmarks, shoulderWidth: real): Rect
  {
    var width := Trunc(shoulderWidth * 1.6);
    var height := lm.leftHip.y - lm.nose.y;
    var left := CenterX(lm.leftShoulder, lm.rightShoulder) - Half(width);
    var top := lm.nose.y - Trunc(height as real * -0.12);
    Rect(left, top, width, height)
  }

  /** Lower-body garment (tryon_bottom): 1.2 hip widths wide, 1.05 times the hip to
      ankle drop tall, hanging from the hip centre. */
  function PlaceBottom(lm: Landmarks, hipWidth: real): Rect
  {
    var hipX, hipY := CenterX(lm.leftHip, lm.rightHip), CenterY(lm.leftHip, lm.rightHip);
    var ankleY := CenterY(lm.leftAnkle, lm.rightAnkle);
    var width := Trunc(hipWidth * 1.2);
    var height := Trunc((ankleY - hipY) as real * 1.05);
    Rect(hipX - Half(width), hipY, width, height)
  }

  /** The top edge of a full-body garment: 5% of the image height above the
      higher shoulder. */
  function FullAnchorY(lm: Landmarks, imageHeight: int): int
  {
    Min(lm.leftShoulder.y, lm.rightShoulder.y) - Trunc(0.05 * imageHeight as real)
  }

  /** Full-body garment (tryon_full): 1.25 times the larger of 1.7 shoulder widths
      and 2.1 hip widths wide, 1.15 times the anchor to ankle drop tall, centred
      on the shoulders. */
  function PlaceFull(lm: Landmarks, shoulderWidth: real, hipWidth: real, imageHeight: int): Rect
  {
    var anchorY := FullAnchorY(lm, imageHeight);
    var width := Trunc(MaxReal(shoulderWidth * 1.7, hipWidth * 2.1) * 1.25);
    var ankleY := CenterY(lm.leftAnkle, lm.rightAnkle);
    var height := Trunc((ankleY - anchorY) as real * 1.15);
    Rect(CenterX(lm.leftShoulder, lm.rightShoulder) - Half(width), anchorY, width, height)
  }

  /** The garment's horizontal midpoint is within half a pixel left of `center`. */
  predicate CenteredOn(r: Rect, center: int)
  {
    r.width - 1 <= 2 * (center - r.x) <= r.width
  }

  // ---------------------------------------------------------------- top

  lemma TopSize(lm: Landmarks, d: real)
    requires IsDistance(d, lm.leftShoulder, lm.rightShoulder)
    ensures var r := PlaceTop(lm, d);
      0 <= r.width && r.width as real <= 1.6 * d < r.width as real + 1.0 &&
      lm.nose.y + r.height == lm.leftHip.y &&
      CenteredOn(r, CenterX(lm.leftShoulder, lm.rightShoulder))
  {
  }

  /** Subtracting the truncation of -0.12 times the height moves the garment down
      by the truncation of 0.12 times the height, which is its floor when the
      height is not negative. */
  lemma TopOffset(lm: Landmarks, d: real)
    ensures var r := PlaceTop(lm, d);
      r.y == lm.nose.y + Trunc(0.12 * r.height as real) &&
      (0 <= r.height ==> r.y == lm.nose.y + (0.12 * r.height as real).Floor) &&
      (0 <= r.height ==> lm.nose.y <= r.y && r.y + r.height >= lm.leftHip.y)
  {
    var h := lm.leftHip.y - lm.nose.y;
    assert h as real * -0.12 == -(0.12 * h as real);
    TruncNegate(0.12 * h as real);
  }

  lemma TopExample(d: real)
    requires IsDistance(d, Point2D(100, 200), Point2D(300, 200))
    ensures PlaceTop(Landmarks(Point2D(100, 200), Point2D(300, 200), Point2D(120, 500), Point2D(280, 500),
                               Point2D(130, 900), Point2D(270, 900), Point2D(200, 150)), d)
            == Rect(40, 192, 320, 350)
  {
    HorizontalDistance(Point2D(100, 200), Point2D(300, 200));
    DistanceUnique(d, 200.0, Point2D(100, 200), Point2D(300, 200));
    assert Trunc(200.0 * 1.6) == 320;
    assert Trunc(350 as real * -0.12) == -42;
  }

  // ---------------------------------------------------------------- bottom

  lemma BottomSize(lm: Landmarks, d: real)
    requires IsDistance(d, lm.leftHip, lm.rightHip)
    ensures var r := PlaceBottom(lm, d);
      0 <= r.width && r.width as real <= 1.2 * d < r.width as real + 1.0 &&
      r.y == CenterY(lm.leftHip, lm.rightHip) &&
      CenteredOn(r, CenterX(lm.leftHip, lm.rightHip))
  {
  }

  /** When the ankles are below the hips the trousers reach at least the ankle centre. */
  lemma BottomReachesAnkles(lm: Landmarks, d: real)
    requires CenterY(lm.leftHip, lm.rightHip) <= CenterY(lm.leftAnkle, lm.rightAnkle)
    ensures var r := PlaceBottom(lm, d);
      r.y + r.height >= CenterY(lm.leftAnkle, lm.rightAnkle)
  {
    TruncOfStretch(CenterY(lm.leftAnkle, lm.rightAnkle) - CenterY(lm.leftHip, lm.rightHip), 1.05);
  }

  lemma BottomExample(d: real)
    requires IsDistance(d, Point2D(120, 500), Point2D(280, 500))
    ensures PlaceBottom(Landmarks(Point2D(100, 200), Point2D(300, 200), Point2D(120, 500), Point2D(280, 500),
                                  Point2D(130, 900), Point2D(270, 900), Point2D(200, 150)), d)
            == Rect(104, 500, 192, 420)
  {
    HorizontalDistance(Point2D(120, 500), Point2D(280, 500));
    DistanceUnique(d, 160.0, Point2D(120, 500), Point2D(280, 500));
    assert Trunc(160.0 * 1.2) == 192;
    assert Trunc(400 as real * 1.05) == 420;
  }

  // ---------------------------------------------------------------- full

  /** The anchor lies above the higher shoulder by the truncation of 5% of the image height. */
  lemma FullAnchorAbove(lm: Landmarks, imageHeight: int)
    requires 0 <= imageHeight
    ensures var a := FullAnchorY(lm, imageHeight);
      var gap := Min(lm.leftShoulder.y, lm.rightShoulder.y) - a;
      a <= lm.leftShoulder.y && a <= lm.rightShoulder.y &&
      0 <= gap && gap as real <= 0.05 * imageHeight as real < gap as real + 1.0
  {
  }

  /** The dress is at least as wide as either of its two candidate widths alone. */
  lemma FullWidthCovers(lm: Landmarks, sd: real, hd: real, imageHeight: int)
    requires IsDistance(sd, lm.leftShoulder, lm.rightShoulder) && IsDistance(hd, lm.leftHip, lm.rightHip)
    ensures var r := PlaceFull(lm, sd, hd, imageHeight);
      r.width >= Trunc(1.25 * 1.7 * sd) && r.width >= Trunc(1.25 * 2.1 * hd) &&
      CenteredOn(r, CenterX(lm.leftShoulder, lm.rightShoulder)) &&
      r.y == FullAnchorY(lm, imageHeight)
  {
    var m := MaxReal(sd * 1.7, hd * 2.1);
    assert 1.25 * 1.7 * sd == sd * 1.7 * 1.25 <= m * 1.25;
    assert 1.25 * 2.1 * hd == hd * 2.1 * 1.25 <= m * 1.25;
    TruncMonotone(1.25 * 1.7 * sd, m * 1.25);
    TruncMonotone(1.25 * 2.1 * hd, m * 1.25);
    assert 0.0 <= m * 1.25;
  }

  /** When the ankles are below the anchor the dress reaches at least the ankle centre. */
  lemma FullReachesAnkles(lm: Landmarks, sd: real, hd: real, imageHeight: int)
    requires FullAnchorY(lm, imageHeight) <= CenterY(lm.leftAnkle, lm.rightAnkle)
    ensures var r := PlaceFull(lm, sd, hd, imageHeight);
      r.y + r.height >= CenterY(lm.leftAnkle, lm.rightAnkle)
  {
    TruncOfStretch(CenterY(lm.leftAnkle, lm.rightAnkle) - FullAnchorY(lm, imageHeight), 1.15);
  }

  lemma FullExample(sd: real, hd: real)
    requires IsDistance(sd, Point2D(100, 200), Point2D(300, 200))
    requires IsDistance(hd, Point2D(120, 500), Point2D(280, 500))
    ensures PlaceFull(Landmarks(Point2D(100, 200), Point2D(300, 200), Point2D(120, 500), Point2D(280, 500),
                                Point2D(130, 900), Point2D(270, 900), Point2D(200, 150)), sd, hd, 1000)
            == Rect(-12, 150, 425, 862)
  {
    HorizontalDistance(Point2D(100, 200), Point2D(300, 200));
    DistanceUnique(sd, 200.0, Point2D(100, 200), Point2D(300, 200));
    HorizontalDistance(Point2D(120, 500), Point2D(280, 500));
    DistanceUnique(hd, 160.0, Point2D(120, 500), Point2D(280, 500));
    assert Trunc(0.05 * 1000 as real) == 50;
    assert MaxReal(200.0 * 1.7, 160.0 * 2.1) == 340.0;
    assert Trunc(340.0 * 1.25) == 425;
    assert Trunc(750 as real * 1.15) == 862;
  }
}
