/** Colours as the views read and write them: `NSColor.getRed(_:green:blue:alpha:)` yields
    an RGB triple, and `NSColor(red:green:blue:alpha:)` builds a colour from four reals. */
module Colors {

  datatype RGB = RGB(red: real, green: real, blue: real)

  datatype Color = Color(red: real, green: real, blue: real, alpha: real)
  {
    /** The colour's red, green and blue components. */
    function Rgb(): RGB {
      RGB(red, green, blue)
    }
  }

  /** `x` lies on the closed segment between `a` and `b`, whichever is larger. */
  predicate Between(x: real, a: real, b: real) {
    (a <= x <= b) || (b <= x <= a)
  }
}
