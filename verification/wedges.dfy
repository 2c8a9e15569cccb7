/** The colour wheel drawn by `buildGradientImage`: one pie wedge per spectrum colour, each
    one degree wide, painted clockwise from the top of the wheel. The raster itself is not
    modelled, only what is drawn where. */
module Wedges {
  import opened Colors
  import opened Geometry
  import Spectrum

  /** One `appendArc(withCenter:radius:startAngle:endAngle:clockwise:)` wedge, closed to the
      centre and filled with `color`; angles in degrees. */
  datatype Wedge = Wedge(color: Color, startAngle: real, endAngle: real, clockwise: bool)

  /** The image: its size, the wheel's centre and radius, and the wedges in drawing order. */
  datatype GradientImage = GradientImage(size: Size, center: Point, radius: real, wedges: seq<Wedge>)

  /** Wedge `n` runs from `90 - n` down to `90 - (n + 1)` degrees. */
  function WedgeAt(colors: seq<Color>, n: nat): Wedge
    requires n < |colors|
  {
    Wedge(colors[n], (90 - n) as real, (90 - (n + 1)) as real, true)
  }

  function BuildGradientImage(colors: seq<Color>, radius: real): (img: GradientImage)
    ensures img.size == Size(2.0 * radius, 2.0 * radius)
    ensures img.center == Point(radius, radius) && img.radius == radius
    ensures |img.wedges| == |colors|
    ensures forall n :: 0 <= n < |colors| ==> img.wedges[n].color == colors[n]
    ensures forall n :: 0 <= n < |colors| ==>
      img.wedges[n].clockwise && img.wedges[n].startAngle - img.wedges[n].endAngle == 1.0
    ensures Contiguous(img.wedges)
    ensures |colors| > 0 ==> img.wedges[0].startAngle == 90.0
    ensures |colors| > 0 ==> img.wedges[|colors| - 1].endAngle == 90.0 - |colors| as real
  {
    GradientImage(Size(2.0 * radius, 2.0 * radius), Point(radius, radius), radius,
                  seq(|colors|, n requires 0 <= n < |colors| => WedgeAt(colors, n)))
  }

  /** Each wedge ends where the next one starts. */
  predicate Contiguous(ws: seq<Wedge>) {
    forall n :: 0 <= n < |ws| - 1 ==> ws[n].endAngle == ws[n + 1].startAngle
  }

  /** The total angle swept by the wedges, in degrees. */
  function Sweep(ws: seq<Wedge>): real {
    if |ws| == 0 then 0.0
    else Sweep(ws[..|ws| - 1]) + (ws[|ws| - 1].startAngle - ws[|ws| - 1].endAngle)
  }

  /** Contiguous wedges sweep from the first one's start to the last one's end. */
  lemma {:induction false} SweepTelescopes(ws: seq<Wedge>)
    requires |ws| > 0 && Contiguous(ws)
    ensures Sweep(ws) == ws[0].startAngle - ws[|ws| - 1].endAngle
  {
    if |ws| > 1 {
      var prefix := ws[..|ws| - 1];
      assert Contiguous(prefix) by {
        forall n | 0 <= n < |prefix| - 1 ensures prefix[n].endAngle == prefix[n + 1].startAngle {
          assert prefix[n] == ws[n] && prefix[n + 1] == ws[n + 1];
        }
      }
      SweepTelescopes(prefix);
      assert prefix[|prefix| - 1] == ws[|ws| - 2];
    }
  }

  /** The wheel of a full spectrum starts at 90 degrees, ends at -270 degrees and sweeps
      exactly one turn. */
  lemma FullTurn(colors: seq<Color>, radius: real)
    requires |colors| == Spectrum.NumberOfColours
    ensures var ws := BuildGradientImage(colors, radius).wedges;
      ws[0].startAngle == 90.0 && ws[|ws| - 1].endAngle == -270.0 && Sweep(ws) == 360.0
  {
    SweepTelescopes(BuildGradientImage(colors, radius).wedges);
  }

  /** Every direction of the wheel, `theta` in (-270, 90], lies in exactly one wedge: number
      `floor(90 - theta)`. The wedges leave no gap and do not overlap. */
  lemma WedgesTileTheTurn(colors: seq<Color>, radius: real, theta: real)
    requires |colors| == Spectrum.NumberOfColours
    requires -270.0 < theta <= 90.0
    ensures var ws := BuildGradientImage(colors, radius).wedges;
      var k := (90.0 - theta).Floor;
      && 0 <= k < |ws|
      && ws[k].endAngle < theta <= ws[k].startAngle
      && forall m :: 0 <= m < |ws| && ws[m].endAngle < theta <= ws[m].startAngle ==> m == k
  {
    var ws := BuildGradientImage(colors, radius).wedges;
    var k := (90.0 - theta).Floor;
    assert k as real <= 90.0 - theta < k as real + 1.0;
    forall m | 0 <= m < |ws| && ws[m].endAngle < theta <= ws[m].startAngle
      ensures m == k
    {
      assert ws[m].startAngle == (90 - m) as real;
      assert m as real <= 90.0 - theta < m as real + 1.0;
    }
  }
}
