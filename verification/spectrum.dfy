/** The colour spectrum of the ring: `buildSpectrumColors(from:endColor:)` of the dotted
    view, which the plain view repeats inline in `buildGradientImage`. */
module Spectrum {
  import opened Colors

  /** `Configuration.numberOfSpectrumColours`. */
  const NumberOfColours: nat := 360

  /** The per-entry increment of one channel, `(to - from) / (numberOfColours - 1)`. */
  function Step(from: real, to: real): real {
    (to - from) / (NumberOfColours - 1) as real
  }

  /** Channel value of entry `n`: `from + n * step`. */
  function Channel(from: real, to: real, n: nat): real {
    from + (n as real) * Step(from, to)
  }

  function Entry(start: RGB, end: RGB, n: nat): Color {
    Color(Channel(start.red, end.red, n),
          Channel(start.green, end.green, n),
          Channel(start.blue, end.blue, n),
          1.0)
  }

  /** The 360 opaque colours from `start` to `end`. */
  function Build(start: RGB, end: RGB): (s: seq<Color>)
    ensures |s| == NumberOfColours
    ensures forall n :: 0 <= n < |s| ==> s[n].alpha == 1.0
    ensures s[0].Rgb() == start
    ensures s[NumberOfColours - 1].Rgb() == end
  {
    seq(NumberOfColours, n requires 0 <= n < NumberOfColours => Entry(start, end, n))
  }

  /** Linear interpolation of one channel at parameter `t`. */
  function Lerp(a: real, b: real, t: real): real {
    (1.0 - t) * a + t * b
  }

  lemma ChannelIsLerp(from: real, to: real, n: nat)
    ensures Channel(from, to, n) == Lerp(from, to, n as real / (NumberOfColours - 1) as real)
  {
    var t := n as real / 359.0;
    assert (n as real) * ((to - from) / 359.0) == t * (to - from);
  }

  lemma ChannelBetween(from: real, to: real, n: nat)
    requires n < NumberOfColours
    ensures Between(Channel(from, to, n), from, to)
  {
    var t := n as real / 359.0;
    assert Channel(from, to, n) == from + t * (to - from);
    OffsetBetween(from, to, t);
  }

  /** Moving from `from` a fraction `t` in [0, 1] of the way to `to` stays between the two. */
  lemma OffsetBetween(from: real, to: real, t: real)
    requires 0.0 <= t <= 1.0
    ensures Between(from + t * (to - from), from, to)
  {
    if from <= to {
      assert t * (to - from) <= 1.0 * (to - from);
    } else {
      assert t * (from - to) <= 1.0 * (from - to);
      assert t * (to - from) == -(t * (from - to));
    }
  }

  /** Entry `n` is the point `n / 359` of the way from `start` to `end`, channel by channel:
      the spectrum is the straight segment between the two colours, sampled evenly. */
  lemma EntriesInterpolate(start: RGB, end: RGB)
    ensures forall n :: 0 <= n < NumberOfColours ==>
      var t := n as real / (NumberOfColours - 1) as real;
      Build(start, end)[n].Rgb()
        == RGB(Lerp(start.red, end.red, t), Lerp(start.green, end.green, t), Lerp(start.blue, end.blue, t))
  {
    forall n | 0 <= n < NumberOfColours
      ensures var t := n as real / (NumberOfColours - 1) as real;
        Build(start, end)[n].Rgb()
          == RGB(Lerp(start.red, end.red, t), Lerp(start.green, end.green, t), Lerp(start.blue, end.blue, t))
    {
      ChannelIsLerp(start.red, end.red, n);
      ChannelIsLerp(start.green, end.green, n);
      ChannelIsLerp(start.blue, end.blue, n);
    }
  }

  /** Every channel of every entry lies between that channel's start and end values. */
  lemma EntriesBetweenEnds(start: RGB, end: RGB)
    ensures forall n :: 0 <= n < NumberOfColours ==>
      && Between(Build(start, end)[n].red, start.red, end.red)
      && Between(Build(start, end)[n].green, start.green, end.green)
      && Between(Build(start, end)[n].blue, start.blue, end.blue)
  {
    forall n | 0 <= n < NumberOfColours
      ensures && Between(Build(start, end)[n].red, start.red, end.red)
              && Between(Build(start, end)[n].green, start.green, end.green)
              && Between(Build(start, end)[n].blue, start.blue, end.blue)
    {
      ChannelBetween(start.red, end.red, n);
      ChannelBetween(start.green, end.green, n);
      ChannelBetween(start.blue, end.blue, n);
    }
  }

  /** Consecutive entries differ by the same amount in each channel: a 359th of the distance
      between the end colours. */
  lemma ConstantStep(start: RGB, end: RGB)
    ensures forall n :: 0 <= n < NumberOfColours - 1 ==>
      var s := Build(start, end);
      && s[n + 1].red - s[n].red == (end.red - start.red) / 359.0
      && s[n + 1].green - s[n].green == (end.green - start.green) / 359.0
      && s[n + 1].blue - s[n].blue == (end.blue - start.blue) / 359.0
  {
  }
}
