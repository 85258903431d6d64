/**
 * The playing field of the delivery game: the fixed canvas, the bike and
 * target sizes, the axis-aligned rectangle hit test and the clamp that keeps
 * the bike on the canvas. All coordinates are integers (the bike starts at an
 * integer position and moves in whole steps; order targets are integer pairs).
 */
module Geometry {

  const CanvasWidth: int := 800
  const CanvasHeight: int := 400
  const BikeWidth: int := 50
  const BikeHeight: int := 35
  const BikeSpeed: int := 3
  const TargetSize: int := 30
  const StartX: int := 100
  const StartY: int := 300

  /** Largest x and y the bike's top-left corner may take. */
  const MaxX: int := CanvasWidth - BikeWidth
  const MaxY: int := CanvasHeight - BikeHeight

  /** An axis-aligned rectangle: top-left corner and extent. */
  datatype Rect = Rect(x: int, y: int, w: int, h: int)

  function BikeRect(x: int, y: int): Rect {
    Rect(x, y, BikeWidth, BikeHeight)
  }

  function TargetRect(tx: int, ty: int): Rect {
    Rect(tx, ty, TargetSize, TargetSize)
  }

  /** The four-condition hit test, with strict inequalities on every side. */
  predicate Overlaps(a: Rect, b: Rect) {
    a.x < b.x + b.w &&
    a.x + a.w > b.x &&
    a.y < b.y + b.h &&
    a.y + a.h > b.y
  }

  /** The unit cell with top-left corner (px, py) lies inside r. */
  predicate Covers(r: Rect, px: int, py: int) {
    r.x <= px < r.x + r.w && r.y <= py < r.y + r.h
  }

  /** Reference definition of a hit: some unit cell lies in both rectangles. */
  ghost predicate ShareCell(a: Rect, b: Rect) {
    exists px: int, py: int :: Covers(a, px, py) && Covers(b, px, py)
  }

  lemma OverlapsSymmetric(a: Rect, b: Rect)
    ensures Overlaps(a, b) == Overlaps(b, a)
  {
  }

  /** Rectangles that only touch along an edge do not hit. */
  lemma TouchingEdgesDoNotOverlap(a: Rect, b: Rect)
    requires a.x + a.w == b.x || b.x + b.w == a.x || a.y + a.h == b.y || b.y + b.h == a.y
    ensures !Overlaps(a, b)
  {
  }

  /** The strict test agrees with the cell-sharing reading for non-degenerate rectangles. */
  lemma OverlapsIffShareCell(a: Rect, b: Rect)
    requires a.w > 0 && a.h > 0 && b.w > 0 && b.h > 0
    ensures Overlaps(a, b) <==> ShareCell(a, b)
  {
    if Overlaps(a, b) {
      var px := if a.x < b.x then b.x else a.x;
      var py := if a.y < b.y then b.y else a.y;
      assert Covers(a, px, py) && Covers(b, px, py);
    }
    if ShareCell(a, b) {
      var px: int, py: int :| Covers(a, px, py) && Covers(b, px, py);
      assert Overlaps(a, b);
    }
  }

  /** The bike against a target; the same test as Overlaps on their rectangles. */
  predicate BikeHits(x: int, y: int, tx: int, ty: int) {
    Overlaps(BikeRect(x, y), TargetRect(tx, ty))
  }

  lemma BikeHitsExactly(x: int, y: int, tx: int, ty: int)
    ensures BikeHits(x, y, tx, ty) <==>
      (tx - BikeWidth < x < tx + TargetSize && ty - BikeHeight < y < ty + TargetSize)
  {
  }

  /** `Math.max(lo, Math.min(hi, v))`. */
  function Clamp(v: int, lo: int, hi: int): (r: int)
    ensures lo <= hi ==> lo <= r <= hi
    ensures lo <= v <= hi ==> r == v
    ensures v < lo ==> r == lo
    ensures lo <= hi < v ==> r == hi
  {
    var m := if v < hi then v else hi;
    if m < lo then lo else m
  }

  lemma ClampIdempotent(v: int, lo: int, hi: int)
    ensures Clamp(Clamp(v, lo, hi), lo, hi) == Clamp(v, lo, hi)
  {
  }
}
