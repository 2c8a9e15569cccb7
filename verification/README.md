# YPRingProgressView — a Dafny model of the ring geometry and colour arithmetic

YPRingProgressView is a macOS ring progress control. A coloured ring is stroked up to a
progress fraction. Under the stroke a colour wheel, interpolated from a start colour to an end
colour, is masked and rotated. In one variant a highlight dot marks the head of the ring. Most
of the repository wires Core Animation layers together. This project models the arithmetic
and data mapping underneath that wiring, and proves what it promises:

- **Ring geometry.** The view's bounds give the largest centred square. That square is inset
  by the view's constant: 30 points in the dotted view, 0 in the plain view. The ring path's
  stroke circle (centre, radius, a clockwise sweep from 90° to −270°) comes from the inset
  square and the ring width.
- **Colour spectrum and wheel.** 360 opaque colours are interpolated linearly per channel.
  They are painted as 360 one-degree wedges running clockwise from the top of the wheel.
- **Progress, shadow and dot.** Progress sets the stroke end and the wheel's rotation. The
  shadow opacity is clamped. The dot's colour index and frame are computed from the ring
  dimension and the ring width.
- **Extensions.** `cgPath` translates path elements one for one. `NSColor(hex:)` decodes a
  hex colour, and `NSColor(red:green:blue:)` scales integer components. Angles convert
  between degrees and radians. `disableActions(for:)` builds a layer's actions map.

`CGFloat` is modelled as `real`. `π` is the exact value of `Double.pi`. Colours are RGB
records. Swift's `Int(...)` is truncation toward zero.

A rectangle is a `CGRect` or the null rectangle. `insetBy(dx:dy:)` follows Core Graphics:
it standardizes the rectangle and moves each side inwards. It returns the null rectangle when
a side would become negative, and the null rectangle has width and height 0. So a ring that is
wider than its rectangle gives a path that cannot be drawn (`BezierPath.Undrawable`). The
radius never goes negative.

The two files named `YPRingProgressView.swift` declare two different classes with the same
name, so they become two modules:

- `DottedRingView` models `YPRingProgressView/YPRingProgressView.swift`: inset 30, a
  rotation, a shadow and a dot.
- `PlainRingView` models `YPRingProgressView/Views/YPRingProgressView.swift`: inset 0, with
  no dot and no rotation.

The spectrum (`Spectrum`) and the wedge schedule (`Wedges`) are defined once, and both views
use them.

`buildSquare(from:)` and both `buildRingRect(from:)` read the view's `bounds` and ignore their
argument, so the model takes the bounds as its input. They also ignore the bounds' origin: the
square is centred on `(width/2, height/2)`. That is the centre of the bounds at NSView's
default zero origin, and the contracts say exactly that (`Geometry.ZeroOrigin`).

Every operation that can trap at run time has an as-written model returning `Option`, with
`None` as the trap:
- `Dictionary(uniqueKeysWithValues:)` on a repeated key;
- `Int(...)` or the spectrum subscript in `updateDotLayer` (`UpdateDotLayerAsWritten`);
- `updateRingWidth`, which calls `updateDotLayer` (`UpdateRingWidthAsWritten`).

The dot's trap is a defect recorded under "## Findings". `UpdateDotLayer` and `UpdateRingWidth`
model the corrected routines. Wherever the source does not trap, they assign exactly what the
source assigns.

Files: `wrappers.dfy`, `numerics.dfy`, `angles.dfy`, `geometry.dfy`, `colors.dfy`,
`hex_color.dfy`, `spectrum.dfy`, `wedges.dfy`, `bezier_path.dfy`, `layer_actions.dfy`,
`dotted_ring_view.dfy`, `plain_ring_view.dfy`.

## Model

| member | source | states |
|---|---|---|
| Angles.DegreesToRadians | YPRingProgressView/Extensions/CGFloatExt.swift:15-17 | converting back with `radiansToDegrees` returns `d`; sign and zero are preserved; 180° is π and 360° is 2π |
| Angles.RadiansToDegrees | YPRingProgressView/Extensions/CGFloatExt.swift:19-21 | sign and zero are preserved; π is 180° and 2π is 360° |
| Angles.RadiansRoundTrip | YPRingProgressView/Extensions/CGFloatExt.swift:15-21 | the converse round trip: radians to degrees and back is the identity |
| Angles.ConversionsLinear | YPRingProgressView/Extensions/CGFloatExt.swift:15-21 | both conversions are additive and homogeneous, so they are linear maps |
| Numerics.Trunc | YPRingProgressView/YPRingProgressView.swift:222 | `Int(x)` truncates toward zero: the result has the sign of `x` and lies less than 1 from it, on the side of 0 |
| Geometry.InsetBy | YPRingProgressView/Extensions/NSBezierPathExt.swift:38 | the inset is null exactly when a side would go negative; otherwise each side shrinks by twice the inset and the centre is unchanged |
| Geometry.InsetStaysInside | YPRingProgressView/YPRingProgressView.swift:261 | a non-negative inset lies inside the rectangle it shrinks |
| BezierPath.ConvertElement | YPRingProgressView/Extensions/NSBezierPathExt.swift:19-26 | moveTo and lineTo keep point 0; curveTo ends at point 2 with controls point 0 and point 1; closePath becomes closeSubpath; reading the element back gives the original |
| BezierPath.ConvertElementOnto | YPRingProgressView/Extensions/NSBezierPathExt.swift:19-26 | every path element is the conversion of the AppKit element it reads back as, so the conversion is a bijection |
| BezierPath.CGPath | YPRingProgressView/Extensions/NSBezierPathExt.swift:14-29 | one output element per input element, in order, each reading back as its input, with curve points reordered |
| BezierPath.RingPathFrom | YPRingProgressView/Extensions/NSBezierPathExt.swift:36-46 | an arc exists exactly when the ring width fits the rectangle; its radius is `(width - ringWidth)/2` and never negative, its centre is the rectangle's centre, and it runs clockwise from 90° through a 360° sweep |
| HexColor.HexChannels | Example/YPRingProgressViewExample/Extensions/NSColorExt.swift:17-19 | red is bits 16-23, green bits 8-15 and blue bits 0-7 of any `Int`, negative ones included, and each lies in [0, 255] |
| HexColor.Pack | Example/YPRingProgressViewExample/Extensions/NSColorExt.swift:18 | the inverse of the decoding: red·2^16 + green·2^8 + blue is below 2^24, and decoding it gives back the three bytes |
| HexColor.OrOfShiftedBytesIsSum | Example/YPRingProgressViewExample/Extensions/NSColorExt.swift:18 | on 32-bit words, or-ing bytes shifted by 16, 8 and 0 bits equals adding them, a fact about the shifts themselves; no link from `bv32` back to `Pack`'s `int` is stated |
| HexColor.PackHexChannels | Example/YPRingProgressViewExample/Extensions/NSColorExt.swift:18 | re-packing the decoded channels gives `hex & 0xFFFFFF` |
| HexColor.HighBitsIgnored | Example/YPRingProgressViewExample/Extensions/NSColorExt.swift:18 | `hex` and `hex & 0xFFFFFF` decode to the same channels and the same colour |
| HexColor.FromComponents | Example/YPRingProgressViewExample/Extensions/NSColorExt.swift:13-15 | each component times 255 is the integer given; byte inputs give components in [0, 1]; alpha is 1 |
| HexColor.FromHex | Example/YPRingProgressViewExample/Extensions/NSColorExt.swift:17-19 | an opaque colour with components in [0, 1] whose 255-multiples are bits 16-23, 8-15 and 0-7 of `hex` |
| HexColor.HexExamples | Example/YPRingProgressViewExample/Extensions/NSColorExt.swift:17-19 | -1 decodes to white; `0x2F1315` decodes to the channels 0x2F, 0x13 and 0x15 |
| LayerActions.DisableActions | YPRingProgressView/Extensions/CALayerExt.swift:13-15 | traps exactly when a key path repeats; otherwise the keys are exactly the given key paths and every value is null |
| LayerActions.RunSteps | YPRingProgressView/Extensions/CALayerExt.swift:14 | each write replaces the whole actions map: with no steps the map is unchanged; after an assignment it is exactly that map; after a disable its keys are exactly that list and every value is null; a trap happens exactly when some disable step has repeated keys |
| LayerActions.BasicListsDistinct | YPRingProgressView/YPRingProgressView.swift:95 | the basic key-path list has no repeats, and neither has that list with "contents" added |
| LayerActions.BasicListsAccepted | YPRingProgressView/YPRingProgressView.swift:131-132 | the basic key-path list, and the basic list with "contents" added, are free of repeats, so neither call traps |
| LayerActions.LaterAssignmentDiscardsDisabledKeys | YPRingProgressView/YPRingProgressView.swift:122-123 | after the ring background layer's set-up, the actions are exactly lineWidth and path; "position" is no longer disabled |
| Spectrum.Build | YPRingProgressView/YPRingProgressView.swift:299-319 | 360 entries, each with alpha 1; entry 0 is the start colour and entry 359 the end colour |
| Spectrum.EntriesInterpolate | YPRingProgressView/YPRingProgressView.swift:308-315 | entry n is the point n/359 of the way along the segment from start to end, channel by channel |
| Spectrum.EntriesBetweenEnds | YPRingProgressView/YPRingProgressView.swift:308-315 | every channel of every entry lies between its start and end values |
| Spectrum.ConstantStep | YPRingProgressView/YPRingProgressView.swift:308-315 | consecutive entries differ by (end − start)/359 in every channel |
| Wedges.BuildGradientImage | YPRingProgressView/YPRingProgressView.swift:270-297 | one clockwise wedge per colour, in order, each one degree wide, each ending where the next starts, the first starting at 90°; the image is a square of side twice the radius, centred on the wheel |
| Wedges.SweepTelescopes | YPRingProgressView/YPRingProgressView.swift:280-284 | contiguous wedges sweep from the first one's start to the last one's end |
| Wedges.FullTurn | YPRingProgressView/YPRingProgressView.swift:280-284 | 360 wedges run from 90° down to −270° and sweep exactly 360° |
| Wedges.WedgesTileTheTurn | YPRingProgressView/YPRingProgressView.swift:280-284 | every direction in (−270°, 90°] lies in exactly one wedge, number floor(90 − θ): no gaps and no overlaps |
| DottedRingView.BuildSquare | YPRingProgressView/YPRingProgressView.swift:264-268 | a square of side min(w, h), centred on (w/2, h/2) and inside the bounds at the zero origin |
| DottedRingView.BuildRingRect | YPRingProgressView/YPRingProgressView.swift:258-262 | the square inset by 30 on every side: side min(w, h) − 60 with the same centre, inside the square; null exactly when min(w, h) < 60 |
| DottedRingView.BuildRingPath | YPRingProgressView/YPRingProgressView.swift:253-256 | the arc exists exactly when the ring fits the ring rectangle; it is centred on the view, with radius (min(w, h) − 60 − ringWidth)/2 |
| DottedRingView.UpdateProgress | YPRingProgressView/YPRingProgressView.swift:168-173 | strokeEnd is the progress; the rotation is 360 − 360·progress degrees, in radians: 2π at progress 0, 0 at progress 1, within [0, 2π] for progress in [0, 1] |
| DottedRingView.RotationTracksProgress | YPRingProgressView/YPRingProgressView.swift:171-172 | rotations differ by a full turn per unit of progress, so progress p and p + 1 give the same orientation |
| DottedRingView.UpdateRingShadow | YPRingProgressView/YPRingProgressView.swift:203-212 | the opacity is clamp(opacity, 0, 1) when the shadow is enabled and 0 when it is disabled; the colour is written either way |
| DottedRingView.ShadowOpacityMonotoneAndStable | YPRingProgressView/YPRingProgressView.swift:207-208 | the applied opacity is monotone in the requested one, and applying it again changes nothing |
| DottedRingView.IndexInRange | YPRingProgressView/YPRingProgressView.swift:222 | `360/c·(c − 0.5)` equals `360 − 180/c`, whose truncation is in [0, 359] exactly when c > 180/361 |
| DottedRingView.RawDotColorIndex | YPRingProgressView/YPRingProgressView.swift:221-222 | for a non-zero ring width and dimension, `Int(360 / containsDot · (containsDot − 0.5))` is trunc(360 − 180/containsDot) |
| DottedRingView.DotColorIndexAsWritten | YPRingProgressView/YPRingProgressView.swift:221-223 | the lookup succeeds exactly when the ring width is non-zero and containsDot > 180/361, so containsDot ≥ 0.5 is enough; the index is then trunc(360 − 180/containsDot), in [0, 359] |
| DottedRingView.DotColorIndex | YPRingProgressView/YPRingProgressView.swift:221-223 | the corrected index is always in [0, 359] and equals the source's index wherever the source does not trap |
| DottedRingView.DotAt | YPRingProgressView/YPRingProgressView.swift:225-229 | the dot is a square of side 1.1·ringWidth with corner radius half its side; its centre is horizontally centred on the ring rectangle and lies ringWidth/2 below the rectangle's top |
| DottedRingView.UpdateDotLayerAsWritten | YPRingProgressView/YPRingProgressView.swift:214-230 | traps exactly when the colour index does; otherwise the ring rectangle exists and the dot takes the spectrum colour at that index |
| DottedRingView.UpdateDotLayer | YPRingProgressView/YPRingProgressView.swift:214-230 | a dot exists exactly when the ring rectangle does; its colour is the opaque spectrum entry at the clamped index `DotColorIndex`; it is a circle of diameter 1.1·ringWidth centred at (w/2, h/2 + (min(w, h) − 60 − ringWidth)/2) |
| DottedRingView.DotLayerAgreesWithSource | YPRingProgressView/YPRingProgressView.swift:214-230 | wherever the source's colour index is defined (no trap), the corrected dot is the source's dot |
| DottedRingView.SmallViewTraps | YPRingProgressView/YPRingProgressView.swift:221-223 | a 60 × 60 view with ring width 20 has a ring rectangle of side 0, and the source traps there |
| DottedRingView.ThickRingTraps | YPRingProgressView/YPRingProgressView.swift:221-223 | a 100 × 100 view with ring width 1000 gives a negative index, and the source traps there |
| DottedRingView.UpdateRingWidth | YPRingProgressView/YPRingProgressView.swift:189-201 | with the corrected dot: the ring background and the progress mask get the same path, both get the line width ringWidth, and the dot is the corrected `UpdateDotLayer` |
| DottedRingView.UpdateRingWidthAsWritten | YPRingProgressView/YPRingProgressView.swift:189-201 | as written: traps exactly when its `updateDotLayer()` call traps; otherwise it assigns the same layers as the corrected routine, with the source's dot |
| DottedRingView.ShortSideTraps | YPRingProgressView/YPRingProgressView.swift:217-222 | every view whose shorter side is at most 60 points traps in `updateRingWidth`, for any ring width; so a view created with a zero frame (`init(frame: .zero)`) traps when `commonInit()` calls `updateLayers()` at :79 |
| DottedRingView.DotSitsAtRingStart | YPRingProgressView/YPRingProgressView.swift:226-229 | whenever the view is at least 60 points and the ring fits the ring rectangle, the ring path is an arc, the dot exists and its centre is the top of the stroke circle, where the arc starts |
| DottedRingView.UpdateRingGradientImage | YPRingProgressView/YPRingProgressView.swift:180-187 | the wheel's radius is min(w, h)/2; its 360 wedges carry the spectrum in order, from 90° to −270° |
| PlainRingView.BuildRingRect | YPRingProgressView/Views/YPRingProgressView.swift:189-196 | with inset 0: a never-null square of side min(w, h), centred on (w/2, h/2) and inside the bounds |
| PlainRingView.RingRectIsCentredSquare | YPRingProgressView/Views/YPRingProgressView.swift:189-196 | the ring rectangle is exactly the dotted view's centred square |
| PlainRingView.BuildRingPath | YPRingProgressView/Views/YPRingProgressView.swift:184-187 | the arc exists exactly when ringWidth ≤ min(w, h); it is centred on the view, with radius (min(w, h) − ringWidth)/2 |
| PlainRingView.UpdateRingWidth | YPRingProgressView/Views/YPRingProgressView.swift:140-151 | the background and the foreground get the same ring path, and both get lineWidth = ringWidth; their stroke ends are untouched |
| PlainRingView.UpdateProgressValue | YPRingProgressView/Views/YPRingProgressView.swift:161-163 | strokeEnd becomes the progress and nothing else changes; there is no rotation |
| PlainRingView.ProgressUpdatesCommute | YPRingProgressView/Views/YPRingProgressView.swift:161-163 | the last progress update alone decides the layer, and progress and ring-width updates commute |
| PlainRingView.BuildGradientImage | YPRingProgressView/Views/YPRingProgressView.swift:198-241 | 360 opaque wedges; the first has the start colour and begins at 90°, the last has the end colour and ends at −270° |
| PlainRingView.WheelColoursStepEvenly | YPRingProgressView/Views/YPRingProgressView.swift:206-215 | consecutive wedge colours differ by a constant step in every channel, and every channel stays between its start and end values |
| PlainRingView.UpdateRingGradientImage | YPRingProgressView/Views/YPRingProgressView.swift:153-159 | the wheel's radius is min(w, h)/2, so its image is the centred square |

## Left out

- Layer-tree construction, masks, sublayer order, `CATransaction` animation toggling, `contentsScale` handling on a backing-scale change, `@IBDesignable`/`@IBInspectable` and the `frame` observers are toolkit plumbing with no arithmetic of their own.
- `updateBackgroundColor` and `updateRingBackgroundColor` each assign one colour to a layer, and the dot's fixed shadow radius and offset are constants of set-up. Neither holds anything to state.
- Rasterisation in `buildGradientImage` (`NSImage`, `lockFocus`, fill and stroke) is left out. Only the wedges, their angles and their colours are modelled.
- `appendArc` flattens an arc into Bézier curve elements inside AppKit. The ring path is kept as its arc parameters, and `cgPath` is modelled on arbitrary element sequences.
- `NSColor.getRed` and colour-space conversion are AppKit behaviour. Colours are the RGB triples they report.
- IEEE floating-point rounding is left out, and so is the `Float(...)` narrowing of the shadow opacity. All arithmetic is exact over the reals.
- DottedRingView.DotColorIndexAsWritten: one trap covers both an `Int(...)` conversion out of the 64-bit range and an out-of-range subscript. The model does not say which of the two fires.
- DottedRingView.UpdateDotLayer: whenever the ring rectangle is null, the source traps at YPRingProgressView/YPRingProgressView.swift:222, because `containsDot` is 0 (or NaN for a zero ring width). The corrected model places no dot there.
- DottedRingView.UpdateRingWidth: it uses the corrected dot, so it never traps. The source's trapping behaviour is `UpdateRingWidthAsWritten`.
- The `actions` assignments that follow `disableActions` at YPRingProgressView/YPRingProgressView.swift:151 and :159 have the same shape as the one at :123. Only that one is worked through.
- LayerActions.DisableActions: two keys are equal when their code points are equal. Swift's `String` equality is Unicode canonical equivalence, so `Dictionary(uniqueKeysWithValues:)` also traps on keys such as `"\u{E9}"` and `"e\u{301}"`. The model accepts those. Both views pass only ASCII key paths, where the two notions agree.
- The two ViewController files only forward slider and colour-well values into the view's properties.

## Findings

| source | as written | input that shows it | evidently intended | confidence | as-written member | corrected member |
|---|---|---|---|---|---|---|
| YPRingProgressView/YPRingProgressView.swift:221-223 | the dot's colour index `Int(360 / containsDot * (containsDot - 0.5))` subscripts the 360-colour spectrum with no range check | every dotted view whose shorter side is at most 60 points, for any ring width: the ring rectangle is null or has side 0, containsDot is 0 (or NaN) and `Int(...)` traps. So a view created with a zero frame (`init(frame: .zero)`) traps when `commonInit()` calls `updateLayers()` at :79. For example, a 60 × 60 view with the default ring width 20. Separately, a 100 × 100 view with ring width 1000 gives containsDot ≈ 0.23 and a negative index | a valid spectrum index for every view size and ring width, the index clamped to [0, 359] | medium, not executed | DottedRingView.ShortSideTraps | DottedRingView.DotColorIndex |
