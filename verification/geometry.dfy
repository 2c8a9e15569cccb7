/** `CGPoint`, `CGSize` and `CGRect` with the accessors and the inset the views use. */
module Geometry {
  import opened Numerics

  datatype Point = Point(x: real, y: real)

  datatype Size = Size(width: real, height: real)

  /** A rectangle with an origin and a size, either of whose sides may be negative, or the
      null rectangle that an inset returns when it would turn a side negative. */
  datatype Rect = Rect(origin: Point, size: Size) | Null

  /** `CGRect.width`: the standardized width; the null rectangle has width 0. */
  function Width(r: Rect): (w: real)
    ensures w >= 0.0
    ensures r.Rect? ==> w == r.size.width || w == -r.size.width
  {
    match r
    case Null => 0.0
    case Rect(_, size) => Abs(size.width)
  }

  /** `CGRect.height`: the standardized height; the null rectangle has height 0. */
  function Height(r: Rect): (h: real)
    ensures h >= 0.0
    ensures r.Rect? ==> h == r.size.height || h == -r.size.height
  {
    match r
    case Null => 0.0
    case Rect(_, size) => Abs(size.height)
  }

  function MinX(r: Rect): real
    requires r.Rect?
  {
    Min(r.origin.x, r.origin.x + r.size.width)
  }

  function MinY(r: Rect): real
    requires r.Rect?
  {
    Min(r.origin.y, r.origin.y + r.size.height)
  }

  function MidX(r: Rect): real
    requires r.Rect?
  {
    r.origin.x + r.size.width / 2.0
  }

  function MidY(r: Rect): real
    requires r.Rect?
  {
    r.origin.y + r.size.height / 2.0
  }

  /** The centre of a rectangle. */
  function Center(r: Rect): Point
    requires r.Rect?
  {
    Point(MidX(r), MidY(r))
  }

  /** `outer` covers every point of `inner`. */
  predicate Contains(outer: Rect, inner: Rect)
    requires outer.Rect? && inner.Rect?
  {
    && MinX(outer) <= MinX(inner)
    && MinX(inner) + Width(inner) <= MinX(outer) + Width(outer)
    && MinY(outer) <= MinY(inner)
    && MinY(inner) + Height(inner) <= MinY(outer) + Height(outer)
  }

  /** The rectangle at the zero origin with the standardized size of `r`: a view's bounds
      as the ring geometry reads them. */
  function ZeroOrigin(r: Rect): (z: Rect)
    ensures z.Rect? && Width(z) == Width(r) && Height(z) == Height(r)
    ensures MinX(z) == 0.0 && MinY(z) == 0.0
  {
    Rect(Point(0.0, 0.0), Size(Width(r), Height(r)))
  }

  /** `CGRect.insetBy(dx:dy:)`: the rectangle is standardized, each side moves inwards by
      `dx` (left and right) and `dy` (bottom and top), and the null rectangle comes back
      when a side would become negative. */
  function InsetBy(r: Rect, dx: real, dy: real): (q: Rect)
    ensures q.Null? <==> r.Null? || Width(r) - 2.0 * dx < 0.0 || Height(r) - 2.0 * dy < 0.0
    ensures q.Rect? ==> q.size.width >= 0.0 && q.size.height >= 0.0
    ensures q.Rect? ==> Width(q) == Width(r) - 2.0 * dx && Height(q) == Height(r) - 2.0 * dy
    ensures q.Rect? ==> Center(q) == Center(r)
    ensures q.Rect? ==> MinX(q) == MinX(r) + dx && MinY(q) == MinY(r) + dy
  {
    match r
    case Null => Null
    case Rect(_, _) =>
      var w := Width(r) - 2.0 * dx;
      var h := Height(r) - 2.0 * dy;
      if w < 0.0 || h < 0.0 then Null
      else Rect(Point(MinX(r) + dx, MinY(r) + dy), Size(w, h))
  }

  /** An inset by a non-negative amount keeps inside the rectangle it shrinks. */
  lemma InsetStaysInside(r: Rect, dx: real, dy: real)
    requires dx >= 0.0 && dy >= 0.0
    requires InsetBy(r, dx, dy).Rect?
    ensures r.Rect? && Contains(r, InsetBy(r, dx, dy))
  {
  }
}
