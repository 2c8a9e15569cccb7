/** `YPRingProgressView/YPRingProgressView.swift`: the view with an inset ring, a rotating
    colour wheel and a highlight dot at the head of the ring. Each update routine becomes a
    function from the view's properties to the values it assigns to its layers. */
module DottedRingView {
  import opened Wrappers
  import opened Numerics
  import opened Geometry
  import opened Colors
  import opened Angles
  import opened BezierPath
  import Spectrum
  import Wedges

  /** `Configuration.ringRectInset`. */
  const RingRectInset: real := 30.0

  /** `buildSquare(from:)`: the largest square centred in the bounds. The source reads the
      view's `bounds` rather than its argument, so the bounds are the input; the square is
      placed relative to the zero origin. */
  function BuildSquare(bounds: Rect): (square: Rect)
    ensures square.Rect? && square.size.width >= 0.0 && square.size.height >= 0.0
    ensures Width(square) == Height(square) == Min(Width(bounds), Height(bounds))
    ensures Center(square) == Center(ZeroOrigin(bounds))
    ensures Contains(ZeroOrigin(bounds), square)
  {
    var minSide := Min(Width(bounds), Height(bounds));
    var origin := Point((Width(bounds) - minSide) / 2.0, (Height(bounds) - minSide) / 2.0);
    Rect(origin, Size(minSide, minSide))
  }

  /** `buildRingRect(from:)`: the square inset by 30 points on every side. A view whose
      shorter side is under 60 points gets the null rectangle. */
  function BuildRingRect(bounds: Rect): (ringRect: Rect)
    ensures ringRect.Rect? <==> Min(Width(bounds), Height(bounds)) >= 2.0 * RingRectInset
    ensures ringRect.Rect? ==> ringRect.size.width >= 0.0 && ringRect.size.height >= 0.0
    ensures ringRect.Rect? ==>
      Width(ringRect) == Height(ringRect) == Min(Width(bounds), Height(bounds)) - 2.0 * RingRectInset
    ensures ringRect.Rect? ==> Center(ringRect) == Center(ZeroOrigin(bounds))
    ensures ringRect.Rect? ==> Contains(BuildSquare(bounds), ringRect)
  {
    InsetBy(BuildSquare(bounds), RingRectInset, RingRectInset)
  }

  /** `buildRingPath(from:with:)`. */
  function BuildRingPath(bounds: Rect, ringWidth: real): (path: RingPath)
    ensures path.Arc? <==>
      2.0 * RingRectInset <= Min(Width(bounds), Height(bounds)) &&
      ringWidth <= Min(Width(bounds), Height(bounds)) - 2.0 * RingRectInset
    ensures path.Arc? ==> path.center == Center(ZeroOrigin(bounds))
    ensures path.Arc? ==>
      path.radius == (Min(Width(bounds), Height(bounds)) - 2.0 * RingRectInset - ringWidth) / 2.0
  {
    RingPathFrom(BuildRingRect(bounds), ringWidth)
  }

  /** What `updateProgress()` assigns: the mask's `strokeEnd`, and the gradient layer's
      rotation about the z axis, in radians. */
  datatype ProgressState = ProgressState(strokeEnd: real, rotation: real)

  /** `updateProgress()`: the ring is stroked up to `progress` and the wheel is turned by
      `360 - 360 * progress` degrees. */
  function UpdateProgress(progress: real): (s: ProgressState)
    ensures s.strokeEnd == progress
    ensures RadiansToDegrees(s.rotation) == 360.0 - 360.0 * progress
    ensures progress == 0.0 ==> s.rotation == 2.0 * Pi
    ensures progress == 1.0 ==> s.rotation == 0.0
    ensures 0.0 <= progress <= 1.0 ==> 0.0 <= s.rotation <= 2.0 * Pi
  {
    var angle := 360.0 - 360.0 * progress;
    ProgressState(progress, DegreesToRadians(angle))
  }

  /** The wheel turns back exactly as far as the stroke advances: two progress values differ
      in rotation by their difference times a full turn, so progress `p` and `p + 1` give the
      same orientation. */
  lemma RotationTracksProgress(p: real, q: real)
    ensures UpdateProgress(p).rotation - UpdateProgress(q).rotation == 2.0 * Pi * (q - p)
  {
  }

  /** What `updateRingShadow(animated:)` assigns to the dot layer. */
  datatype Shadow = Shadow(opacity: real, color: Color)

  /** `updateRingShadow(animated:)`: the opacity clamped to [0, 1] when the shadow is on and 0
      when it is off; the colour is written either way. */
  function UpdateRingShadow(enabled: bool, opacity: real, color: Color): (s: Shadow)
    ensures s.color == color
    ensures 0.0 <= s.opacity <= 1.0
    ensures !enabled ==> s.opacity == 0.0
    ensures enabled && 0.0 <= opacity <= 1.0 ==> s.opacity == opacity
    ensures enabled && opacity < 0.0 ==> s.opacity == 0.0
    ensures enabled && opacity > 1.0 ==> s.opacity == 1.0
  {
    var shadowOpacity := Min(Max(opacity, 0.0), 1.0);
    Shadow(if enabled then shadowOpacity else 0.0, color)
  }

  /** A larger requested opacity never gives a fainter shadow, and feeding the applied opacity
      back in changes nothing. */
  lemma ShadowOpacityMonotoneAndStable(enabled: bool, a: real, b: real, color: Color)
    requires a <= b
    ensures UpdateRingShadow(enabled, a, color).opacity <= UpdateRingShadow(enabled, b, color).opacity
    ensures var s := UpdateRingShadow(enabled, a, color);
      UpdateRingShadow(enabled, s.opacity, color) == s
  {
  }

  /** `ringWidthWithInset`: the dot's diameter, a tenth wider than the ring. */
  function RingWidthWithInset(ringWidth: real): real {
    ringWidth + ringWidth / 10.0
  }

  /** `containsDot`: how many dots fit along the circumference of a circle of diameter
      `ringDimension`. */
  function ContainsDot(ringDimension: real, ringWidth: real): real
    requires ringWidth != 0.0
  {
    2.0 * Pi * ringDimension / RingWidthWithInset(ringWidth)
  }

  /** The colour index as `Int(...)` computes it from a non-zero `containsDot`: it equals
      `trunc(360 - 180 / containsDot)`, which is a valid index exactly when `containsDot`
      exceeds 180/361. */
  lemma IndexInRange(containsDot: real)
    requires containsDot != 0.0
    ensures (Spectrum.NumberOfColours as real / containsDot) * (containsDot - 0.5)
      == 360.0 - 180.0 / containsDot
    ensures 0 <= Trunc(360.0 - 180.0 / containsDot) < Spectrum.NumberOfColours
      <==> containsDot > 180.0 / 361.0
  {
    var c := containsDot;
    assert (360.0 / c) * c == 360.0;
    assert (360.0 / c) * 0.5 == 180.0 / c;
    var x := 360.0 - 180.0 / c;
    if c > 0.0 {
      assert 180.0 / c > 0.0;
      if c > 180.0 / 361.0 {
        assert 180.0 / c < 361.0 by {
          assert (180.0 / c) * c == 180.0;
          assert 361.0 * c > 180.0;
        }
      } else {
        assert 180.0 / c >= 361.0 by {
          assert (180.0 / c) * c == 180.0;
          assert 361.0 * c <= 180.0;
        }
      }
    } else {
      assert 180.0 / c < 0.0;
    }
  }

  /** The colour index `Int(360 / containsDot * (containsDot - 0.5))` wherever `containsDot`
      is finite and non-zero, before it is used as a subscript. */
  function RawDotColorIndex(ringDimension: real, ringWidth: real): (i: int)
    requires ringWidth != 0.0 && ringDimension != 0.0
    ensures i == Trunc(360.0 - 180.0 / ContainsDot(ringDimension, ringWidth))
  {
    var containsDot := ContainsDot(ringDimension, ringWidth);
    IndexInRange(containsDot);
    Trunc((Spectrum.NumberOfColours as real / containsDot) * (containsDot - 0.5))
  }

  /** The colour index of `updateDotLayer` as written, used unchecked to subscript the
      360-colour spectrum. `None` is a trap: a zero ring width makes `containsDot` infinite or
      NaN, a zero ring dimension makes the quotient infinite, and either is refused by
      `Int(...)`; any other index outside [0, 359] fails the array subscript. */
  function DotColorIndexAsWritten(ringDimension: real, ringWidth: real): (r: Option<int>)
    ensures r.Some? <==> ringWidth != 0.0 && ContainsDot(ringDimension, ringWidth) > 180.0 / 361.0
    ensures ringWidth != 0.0 && ContainsDot(ringDimension, ringWidth) >= 0.5 ==> r.Some?
    ensures r.Some? ==> ringDimension != 0.0 && 0 <= r.value < Spectrum.NumberOfColours
    ensures r.Some? ==> r.value == Trunc(360.0 - 180.0 / ContainsDot(ringDimension, ringWidth))
  {
    if ringWidth == 0.0 || ringDimension == 0.0 then None
    else
      IndexInRange(ContainsDot(ringDimension, ringWidth));
      var colorIndex := RawDotColorIndex(ringDimension, ringWidth);
      if 0 <= colorIndex < Spectrum.NumberOfColours then Some(colorIndex) else None
  }

  /** The colour index with the range the subscript needs: the as-written index clamped to
      [0, 359], and index 0 where the as-written computation has no finite value. */
  function DotColorIndex(ringDimension: real, ringWidth: real): (i: int)
    ensures 0 <= i < Spectrum.NumberOfColours
    ensures DotColorIndexAsWritten(ringDimension, ringWidth).Some? ==>
      i == DotColorIndexAsWritten(ringDimension, ringWidth).value
  {
    if ringWidth == 0.0 || ringDimension == 0.0 then 0
    else
      var colorIndex := RawDotColorIndex(ringDimension, ringWidth);
      if colorIndex < 0 then 0
      else if colorIndex >= Spectrum.NumberOfColours then Spectrum.NumberOfColours - 1
      else colorIndex
  }

  /** What `updateDotLayer()` assigns to the dot layer. */
  datatype Dot = Dot(color: Color, cornerRadius: real, frame: Rect)

  /** The dot's corner radius and frame: a circle a tenth wider than the ring, horizontally
      centred on the ring rectangle, with its centre on the ring's stroke line at the top. */
  function DotAt(ringRect: Rect, ringWidth: real, color: Color): (dot: Dot)
    requires ringRect.Rect?
    ensures dot.color == color && dot.frame.Rect?
    ensures dot.frame.size == Size(RingWidthWithInset(ringWidth), RingWidthWithInset(ringWidth))
    ensures 2.0 * dot.cornerRadius == dot.frame.size.width
    ensures MidX(dot.frame) == ringRect.origin.x + Width(ringRect) / 2.0
    ensures MidY(dot.frame) == ringRect.origin.y + Width(ringRect) - ringWidth / 2.0
  {
    var ringDimension := Width(ringRect);
    var widthWithInset := RingWidthWithInset(ringWidth);
    var origin := Point(ringRect.origin.x + (ringDimension - widthWithInset) / 2.0,
                        ringRect.origin.y + ringDimension - widthWithInset + (widthWithInset - ringWidth) / 2.0);
    Dot(color, widthWithInset / 2.0, Rect(origin, Size(widthWithInset, widthWithInset)))
  }

  /** `updateDotLayer()` as written; `None` is the trap of `DotColorIndexAsWritten`. */
  function UpdateDotLayerAsWritten(bounds: Rect, ringWidth: real, start: RGB, end: RGB): (r: Option<Dot>)
    ensures r.Some? <==> DotColorIndexAsWritten(Width(BuildRingRect(bounds)), ringWidth).Some?
    ensures r.Some? ==> BuildRingRect(bounds).Rect?
    ensures r.Some? ==> r.value.color == Spectrum.Build(start, end)[DotColorIndexAsWritten(Width(BuildRingRect(bounds)), ringWidth).value]
  {
    var spectrumColors := Spectrum.Build(start, end);
    var ringRect := BuildRingRect(bounds);
    match DotColorIndexAsWritten(Width(ringRect), ringWidth)
    case None => None
    case Some(colorIndex) => Some(DotAt(ringRect, ringWidth, spectrumColors[colorIndex]))
  }

  /** `updateDotLayer()` with the clamped colour index. The dot is placed whenever the ring
      rectangle exists; a view under 60 points has no ring rectangle to place it on. */
  function UpdateDotLayer(bounds: Rect, ringWidth: real, start: RGB, end: RGB): (r: Option<Dot>)
    ensures r.Some? <==> Min(Width(bounds), Height(bounds)) >= 2.0 * RingRectInset
    ensures r.Some? ==> r.value.color in Spectrum.Build(start, end) && r.value.color.alpha == 1.0
    ensures r.Some? ==>
      r.value.color == Spectrum.Build(start, end)[DotColorIndex(Width(BuildRingRect(bounds)), ringWidth)]
    ensures r.Some? ==> r.value.frame.Rect?
    ensures r.Some? ==> r.value.frame.size == Size(RingWidthWithInset(ringWidth), RingWidthWithInset(ringWidth))
    ensures r.Some? ==> 2.0 * r.value.cornerRadius == r.value.frame.size.width
    ensures r.Some? ==> Center(r.value.frame) == Point(
      Width(bounds) / 2.0,
      Height(bounds) / 2.0 + (Min(Width(bounds), Height(bounds)) - 2.0 * RingRectInset - ringWidth) / 2.0)
  {
    var spectrumColors := Spectrum.Build(start, end);
    var ringRect := BuildRingRect(bounds);
    if ringRect.Null? then None
    else Some(DotAt(ringRect, ringWidth, spectrumColors[DotColorIndex(Width(ringRect), ringWidth)]))
  }

  /** Wherever the source does not trap, the corrected dot is the one it draws. */
  lemma DotLayerAgreesWithSource(bounds: Rect, ringWidth: real, start: RGB, end: RGB)
    requires DotColorIndexAsWritten(Width(BuildRingRect(bounds)), ringWidth).Some?
    ensures UpdateDotLayer(bounds, ringWidth, start, end) == UpdateDotLayerAsWritten(bounds, ringWidth, start, end)
  {
  }

  /** The index is not guarded: a 60 x 60 view with the default ring width of 20 has a ring
      rectangle of side 0, so `containsDot` is 0 and `Int(-infinity)` traps. The corrected
      layer places a dot. */
  lemma SmallViewTraps(start: RGB, end: RGB)
    ensures var bounds := Rect(Point(0.0, 0.0), Size(60.0, 60.0));
      && BuildRingRect(bounds) == Rect(Point(30.0, 30.0), Size(0.0, 0.0))
      && UpdateDotLayerAsWritten(bounds, 20.0, start, end).None?
      && UpdateDotLayer(bounds, 20.0, start, end).Some?
  {
    var bounds := Rect(Point(0.0, 0.0), Size(60.0, 60.0));
    assert BuildSquare(bounds) == bounds;
    assert DotColorIndexAsWritten(0.0, 20.0).None?;
  }

  /** A 100 x 100 view whose ring is 1000 wide fits a fraction of a dot on its ring
      (`containsDot` is about 0.23), the index comes out negative and the subscript traps. */
  lemma ThickRingTraps(start: RGB, end: RGB)
    ensures var bounds := Rect(Point(0.0, 0.0), Size(100.0, 100.0));
      && BuildRingRect(bounds) == Rect(Point(30.0, 30.0), Size(40.0, 40.0))
      && UpdateDotLayerAsWritten(bounds, 1000.0, start, end).None?
      && UpdateDotLayer(bounds, 1000.0, start, end).Some?
  {
    var bounds := Rect(Point(0.0, 0.0), Size(100.0, 100.0));
    assert BuildSquare(bounds) == bounds;
    assert ContainsDot(40.0, 1000.0) < 180.0 / 361.0;
    assert DotColorIndexAsWritten(40.0, 1000.0).None?;
  }

  /** What `updateRingWidth(animated:)` assigns: one ring path and width for both the ring
      background and the progress mask, and the dot. */
  datatype RingLayers = RingLayers(backgroundPath: RingPath, backgroundLineWidth: real,
                                   maskPath: RingPath, maskLineWidth: real, dot: Option<Dot>)

  /** `updateRingWidth(animated:)`. */
  function UpdateRingWidth(bounds: Rect, ringWidth: real, start: RGB, end: RGB): (layers: RingLayers)
    ensures layers.backgroundPath == layers.maskPath
    ensures layers.backgroundLineWidth == ringWidth && layers.maskLineWidth == ringWidth
    ensures layers.maskPath == BuildRingPath(bounds, ringWidth)
    ensures layers.dot == UpdateDotLayer(bounds, ringWidth, start, end)
  {
    var ringPath := BuildRingPath(bounds, ringWidth);
    RingLayers(ringPath, ringWidth, ringPath, ringWidth, UpdateDotLayer(bounds, ringWidth, start, end))
  }

  /** `updateRingWidth(animated:)` as written: `None` is the trap of its `updateDotLayer()`
      call. Where it does not trap it assigns exactly what the corrected routine does. */
  function UpdateRingWidthAsWritten(bounds: Rect, ringWidth: real, start: RGB, end: RGB): (r: Option<RingLayers>)
    ensures r.Some? <==> UpdateDotLayerAsWritten(bounds, ringWidth, start, end).Some?
    ensures r.Some? ==> r.value == UpdateRingWidth(bounds, ringWidth, start, end)
    ensures r.Some? ==> r.value.dot == UpdateDotLayerAsWritten(bounds, ringWidth, start, end)
  {
    var ringPath := BuildRingPath(bounds, ringWidth);
    match UpdateDotLayerAsWritten(bounds, ringWidth, start, end)
    case None => None
    case Some(dot) =>
      DotLayerAgreesWithSource(bounds, ringWidth, start, end);
      Some(RingLayers(ringPath, ringWidth, ringPath, ringWidth, Some(dot)))
  }

  /** Every view whose shorter side is at most 60 points traps in `updateRingWidth`: its ring
      rectangle is null or has side 0, so `containsDot` is 0 (or NaN for a zero ring width).
      So a view created with a zero frame (`init(frame: .zero)`) traps when `commonInit()`
      calls `updateLayers()`. */
  lemma ShortSideTraps(bounds: Rect, ringWidth: real, start: RGB, end: RGB)
    requires Min(Width(bounds), Height(bounds)) <= 2.0 * RingRectInset
    ensures UpdateRingWidthAsWritten(bounds, ringWidth, start, end).None?
  {
    var ringRect := BuildRingRect(bounds);
    assert Width(ringRect) == 0.0;
    assert DotColorIndexAsWritten(0.0, ringWidth).None?;
  }

  /** Whenever the ring fits its rectangle, the dot sits on the ring's stroke circle at the
      point where the arc starts: its centre is the top of the circle the ring path strokes. */
  lemma DotSitsAtRingStart(bounds: Rect, ringWidth: real, start: RGB, end: RGB)
    requires 2.0 * RingRectInset <= Min(Width(bounds), Height(bounds))
    requires ringWidth <= Min(Width(bounds), Height(bounds)) - 2.0 * RingRectInset
    ensures var layers := UpdateRingWidth(bounds, ringWidth, start, end);
      layers.maskPath.Arc? && layers.dot.Some? && Center(layers.dot.value.frame) == TopPoint(layers.maskPath)
  {
  }

  /** `updateRingGradientImage()`: the wheel of the spectrum, with the radius of the square
      rather than of the ring rectangle. */
  function UpdateRingGradientImage(bounds: Rect, start: RGB, end: RGB): (img: Wedges.GradientImage)
    ensures img.radius == Min(Width(bounds), Height(bounds)) / 2.0
    ensures |img.wedges| == Spectrum.NumberOfColours
    ensures forall n :: 0 <= n < |img.wedges| ==> img.wedges[n].color == Spectrum.Build(start, end)[n]
    ensures img.wedges[0].startAngle == 90.0 && img.wedges[|img.wedges| - 1].endAngle == -270.0
  {
    var spectrumColors := Spectrum.Build(start, end);
    var square := BuildSquare(bounds);
    var radius := Width(square) / 2.0;
    Wedges.BuildGradientImage(spectrumColors, radius)
  }
}
