/** `YPRingProgressView/Views/YPRingProgressView.swift`: the view whose ring fills the
    largest centred square, with the colour wheel masked by the progress stroke and no dot
    or rotation. */
module PlainRingView {
  import opened Numerics
  import opened Geometry
  import opened Colors
  import opened BezierPath
  import Spectrum
  import Wedges
  import DottedRingView

  /** `Configuration.ringRectInset`. */
  const RingRectInset: real := 0.0

  /** `buildRingRect(from:)`: the largest square centred in the bounds, inset by nothing. As in
      the other view, the bounds are read instead of the argument. */
  function BuildRingRect(bounds: Rect): (ringRect: Rect)
    ensures ringRect.Rect? && ringRect.size.width >= 0.0 && ringRect.size.height >= 0.0
    ensures Width(ringRect) == Height(ringRect) == Min(Width(bounds), Height(bounds))
    ensures Center(ringRect) == Center(ZeroOrigin(bounds))
    ensures Contains(ZeroOrigin(bounds), ringRect)
  {
    var minSide := Min(Width(bounds), Height(bounds));
    var origin := Point((Width(bounds) - minSide) / 2.0, (Height(bounds) - minSide) / 2.0);
    var ringRect := Rect(origin, Size(minSide, minSide));
    InsetBy(ringRect, RingRectInset, RingRectInset)
  }

  /** With no inset, the ring rectangle is exactly the other view's centred square. */
  lemma RingRectIsCentredSquare(bounds: Rect)
    ensures BuildRingRect(bounds) == DottedRingView.BuildSquare(bounds)
  {
  }

  /** `buildRingPath(from:with:)`. */
  function BuildRingPath(bounds: Rect, ringWidth: real): (path: RingPath)
    ensures path.Arc? <==> ringWidth <= Min(Width(bounds), Height(bounds))
    ensures path.Arc? ==> path.center == Center(ZeroOrigin(bounds))
    ensures path.Arc? ==> path.radius == (Min(Width(bounds), Height(bounds)) - ringWidth) / 2.0
  {
    RingPathFrom(BuildRingRect(bounds), ringWidth)
  }

  /** The state of a shape layer that the update routines write. */
  datatype ShapeLayer = ShapeLayer(path: RingPath, lineWidth: real, strokeEnd: real)

  /** `updateRingWidth(animated:)`: the ring background and the progress stroke get the same
      path and the same line width, the ring width; their stroke ends are left alone. */
  function UpdateRingWidth(bounds: Rect, ringWidth: real, background: ShapeLayer, foreground: ShapeLayer)
    : (layers: (ShapeLayer, ShapeLayer))
    ensures layers.0.path == layers.1.path == BuildRingPath(bounds, ringWidth)
    ensures layers.0.lineWidth == ringWidth && layers.1.lineWidth == ringWidth
    ensures layers.0.strokeEnd == background.strokeEnd && layers.1.strokeEnd == foreground.strokeEnd
  {
    var ringPath := BuildRingPath(bounds, ringWidth);
    (background.(path := ringPath, lineWidth := ringWidth),
     foreground.(path := ringPath, lineWidth := ringWidth))
  }

  /** `updateProgressValue()`: the stroke end becomes the progress, and nothing else of the
      layer changes. */
  function UpdateProgressValue(foreground: ShapeLayer, progress: real): (layer: ShapeLayer)
    ensures layer.strokeEnd == progress
    ensures layer.path == foreground.path && layer.lineWidth == foreground.lineWidth
  {
    foreground.(strokeEnd := progress)
  }

  /** Progress updates keep no memory: the last one alone decides the layer, and the ring
      width and progress updates commute. */
  lemma ProgressUpdatesCommute(bounds: Rect, ringWidth: real, background: ShapeLayer,
                               foreground: ShapeLayer, p: real, q: real)
    ensures UpdateProgressValue(UpdateProgressValue(foreground, p), q) == UpdateProgressValue(foreground, q)
    ensures UpdateRingWidth(bounds, ringWidth, background, UpdateProgressValue(foreground, p)).1
      == UpdateProgressValue(UpdateRingWidth(bounds, ringWidth, background, foreground).1, p)
  {
  }

  /** `buildGradientImage(from:endColor:radius:)`: the inline spectrum from `start` to `end`
      painted as a wheel of one-degree wedges. */
  function BuildGradientImage(start: RGB, end: RGB, radius: real): (img: Wedges.GradientImage)
    ensures img.radius == radius && img.size == Size(2.0 * radius, 2.0 * radius)
    ensures |img.wedges| == Spectrum.NumberOfColours
    ensures forall n :: 0 <= n < |img.wedges| ==> img.wedges[n].color.alpha == 1.0
    ensures img.wedges[0].color.Rgb() == start
    ensures img.wedges[Spectrum.NumberOfColours - 1].color.Rgb() == end
    ensures img.wedges[0].startAngle == 90.0
    ensures img.wedges[Spectrum.NumberOfColours - 1].endAngle == -270.0
  {
    var spectrumColors := Spectrum.Build(start, end);
    Wedges.BuildGradientImage(spectrumColors, radius)
  }

  /** Walking round the wheel, each wedge's colour differs from the previous one by the same
      step in every channel, and each channel stays between its start and end values. */
  lemma WheelColoursStepEvenly(start: RGB, end: RGB, radius: real)
    ensures var ws := BuildGradientImage(start, end, radius).wedges;
      forall n :: 0 <= n < |ws| - 1 ==>
        && ws[n + 1].color.red - ws[n].color.red == (end.red - start.red) / 359.0
        && ws[n + 1].color.green - ws[n].color.green == (end.green - start.green) / 359.0
        && ws[n + 1].color.blue - ws[n].color.blue == (end.blue - start.blue) / 359.0
    ensures var ws := BuildGradientImage(start, end, radius).wedges;
      forall n :: 0 <= n < |ws| ==>
        && Between(ws[n].color.red, start.red, end.red)
        && Between(ws[n].color.green, start.green, end.green)
        && Between(ws[n].color.blue, start.blue, end.blue)
  {
    Spectrum.ConstantStep(start, end);
    Spectrum.EntriesBetweenEnds(start, end);
  }

  /** `updateRingGradientImage()`: the wheel's radius is half the ring rectangle's side, so it
      fills the largest centred square. */
  function UpdateRingGradientImage(bounds: Rect, start: RGB, end: RGB): (img: Wedges.GradientImage)
    ensures img.radius == Min(Width(bounds), Height(bounds)) / 2.0
    ensures img.size == Size(Min(Width(bounds), Height(bounds)), Min(Width(bounds), Height(bounds)))
    ensures |img.wedges| == Spectrum.NumberOfColours
  {
    var ringRect := BuildRingRect(bounds);
    var ringRadius := Width(ringRect) / 2.0;
    BuildGradientImage(start, end, ringRadius)
  }
}
