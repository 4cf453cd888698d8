/** Points, rectangles and images, as the frame producer and its consumer see them. */
module Geometry {

  datatype Option<+T> = None | Some(value: T)

  lemma Regroup<T>(a: seq<T>, b: seq<T>, c: seq<T>)
    ensures a + b + c == a + (b + c)
  {}

  datatype Point = Point(x: int, y: int)

  /** A CEF rectangle; one with a non-positive side covers nothing. */
  datatype Rect = Rect(x: int, y: int, w: int, h: int)

  const EMPTY_RECT := Rect(0, 0, 0, 0)

  predicate Covers(r: Rect, p: Point) {
    r.x <= p.x < r.x + r.w && r.y <= p.y < r.y + r.h
  }

  predicate CoveredBy(rects: seq<Rect>, p: Point) {
    exists i :: 0 <= i < |rects| && Covers(rects[i], p)
  }

  predicate OnSurface(width: nat, height: nat, p: Point) {
    0 <= p.x < width && 0 <= p.y < height
  }

  function Clamp(v: int, hi: nat): int {
    if v < 0 then 0 else if v > hi then hi else v
  }

  /** The corner-wise clamp that popup frames apply to the popup rectangle. */
  function Clip(r: Rect, width: nat, height: nat): Rect {
    var x0, y0 := Clamp(r.x, width), Clamp(r.y, height);
    Rect(x0, y0, Clamp(r.x + r.w, width) - x0, Clamp(r.y + r.h, height) - y0)
  }

  predicate HasArea(r: Rect) {
    r.w > 0 && r.h > 0
  }

  predicate Within(r: Rect, width: nat, height: nat) {
    0 <= r.x && 0 <= r.y && r.x + r.w <= width && r.y + r.h <= height
  }

  /** Clamping corner by corner computes the intersection with the surface, exactly. */
  lemma ClipIsIntersection(r: Rect, width: nat, height: nat, p: Point)
    ensures Covers(Clip(r, width, height), p) <==> Covers(r, p) && OnSurface(width, height, p)
    ensures HasArea(Clip(r, width, height)) ==> Within(Clip(r, width, height), width, height)
  {}

  /** A texel of a texture that nothing was copied into yet is Unwritten. */
  datatype Pixel = Unwritten | Bgra(value: nat)

  datatype Image = Image(width: nat, height: nat, at: Point -> Pixel)

  predicate SameSize(a: Image, b: Image) {
    a.width == b.width && a.height == b.height
  }

  function Blank(width: nat, height: nat): Image {
    Image(width, height, (p: Point) => Unwritten)
  }

  /** `over`, with the points that `rects` covers taken from `from`. */
  function Patch(over: Image, from: Image, rects: seq<Rect>): Image {
    Image(over.width, over.height, (p: Point) => if CoveredBy(rects, p) then from.at(p) else over.at(p))
  }
}
