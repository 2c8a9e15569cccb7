/** `NSBezierPathExt.swift`: the conversion of an `NSBezierPath` into a `CGPath`, and the
    ring path built from a rectangle and a ring width. */
module BezierPath {
  import opened Geometry

  /** An element of an `NSBezierPath` with the points `element(at:associatedPoints:)`
      reports for it. A curve reports its first control point, its second control point and
      then its end point. */
  datatype NSElement =
    | MoveTo(point: Point)
    | LineTo(point: Point)
    | CurveTo(point0: Point, point1: Point, point2: Point)
    | ClosePath

  /** An element as a `CGMutablePath` receives it. */
  datatype CGElement =
    | Move(to: Point)
    | Line(to: Point)
    | Curve(to: Point, control1: Point, control2: Point)
    | CloseSubpath

  /** The inverse reading: the AppKit element a path element came from. */
  function ToNSElement(c: CGElement): (e: NSElement)
    ensures c.Move? <==> e.MoveTo?
    ensures c.Line? <==> e.LineTo?
    ensures c.Curve? <==> e.CurveTo?
    ensures c.CloseSubpath? <==> e.ClosePath?
  {
    match c
    case Move(p) => MoveTo(p)
    case Line(p) => LineTo(p)
    case Curve(to, c1, c2) => CurveTo(c1, c2, to)
    case CloseSubpath => ClosePath
  }

  /** One case of the `switch` in `cgPath`. */
  function ConvertElement(e: NSElement): (c: CGElement)
    ensures ToNSElement(c) == e
    ensures e.MoveTo? ==> c == Move(e.point)
    ensures e.LineTo? ==> c == Line(e.point)
    ensures e.CurveTo? ==> c.Curve? && c.to == e.point2 && c.control1 == e.point0 && c.control2 == e.point1
    ensures e.ClosePath? ==> c == CloseSubpath
  {
    match e
    case MoveTo(p) => Move(p)
    case LineTo(p) => Line(p)
    case CurveTo(p0, p1, p2) => Curve(p2, p0, p1)
    case ClosePath => CloseSubpath
  }

  /** Converting back and forth from the Core Graphics side is the identity too: the
      conversion is a bijection between the two kinds of element. */
  lemma ConvertElementOnto(c: CGElement)
    ensures ConvertElement(ToNSElement(c)) == c
  {
  }

  /** `cgPath`: walks the elements in order and appends each converted element to a new
      mutable path. */
  method CGPath(elements: seq<NSElement>) returns (path: seq<CGElement>)
    ensures |path| == |elements|
    ensures forall i :: 0 <= i < |elements| ==> ToNSElement(path[i]) == elements[i]
    ensures forall i :: 0 <= i < |elements| && elements[i].CurveTo? ==>
      path[i] == Curve(elements[i].point2, elements[i].point0, elements[i].point1)
    ensures forall i :: 0 <= i < |elements| && elements[i].MoveTo? ==> path[i] == Move(elements[i].point)
    ensures forall i :: 0 <= i < |elements| && elements[i].LineTo? ==> path[i] == Line(elements[i].point)
    ensures forall i :: 0 <= i < |elements| && elements[i].ClosePath? ==> path[i] == CloseSubpath
  {
    path := [];
    var index := 0;
    while index < |elements|
      invariant 0 <= index <= |elements|
      invariant |path| == index
      invariant forall i :: 0 <= i < index ==> path[i] == ConvertElement(elements[i])
    {
      path := path + [ConvertElement(elements[index])];
      index := index + 1;
    }
  }

  /** The ring returned by `ringPath(from:with:)`: a circular arc appended clockwise from
      `startAngle` to `endAngle` degrees. When the rectangle inset by half the ring width is
      null the arc is built around that null rectangle's infinite centre, and nothing of it
      can be drawn: `Undrawable`. */
  datatype RingPath =
    | Arc(center: Point, radius: real, startAngle: real, endAngle: real, clockwise: bool)
    | Undrawable

  /** `ringPath(from:with:)`: the stroke circle of a ring of width `ringWidth` whose outer
      edge touches the sides of `rect`. */
  function RingPathFrom(rect: Rect, ringWidth: real): (p: RingPath)
    ensures p.Arc? <==> rect.Rect? && ringWidth <= Width(rect) && ringWidth <= Height(rect)
    ensures p.Arc? ==> p.radius == (Width(rect) - ringWidth) / 2.0 && p.radius >= 0.0
    ensures p.Arc? ==> p.center == Center(rect)
    ensures p.Arc? ==> p.clockwise && p.startAngle == 90.0 && p.startAngle - p.endAngle == 360.0
    ensures ringWidth >= Width(rect) ==> p.Undrawable? || p.radius == 0.0
  {
    var inset := ringWidth / 2.0;
    var rectWithInset := InsetBy(rect, inset, inset);
    match rectWithInset
    case Null => Undrawable
    case Rect(_, _) =>
      Arc(Center(rectWithInset), Width(rectWithInset) / 2.0, 90.0, -270.0, true)
  }

  /** The point of a ring arc at 90 degrees, where the arc starts: straight above the centre. */
  function TopPoint(p: RingPath): Point
    requires p.Arc?
  {
    Point(p.center.x, p.center.y + p.radius)
  }
}
