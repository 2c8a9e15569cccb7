/** `NSColorExt.swift` of the example application: colours from integer components and from
    a hexadecimal `0xRRGGBB` literal. */
module HexColor {
  import opened Colors

  /** Swift's `Int` on a 64-bit platform. */
  type Int64 = x: int | -0x8000_0000_0000_0000 <= x < 0x8000_0000_0000_0000

  /** The three 8-bit channels of a hex colour. */
  datatype Bytes = Bytes(red: int, green: int, blue: int)

  predicate IsByte(x: int) {
    0 <= x < 0x100
  }

  /** The channels `init(hex:)` extracts: bits 16-23, 8-15 and 0-7. On a signed `Int`,
      `hex >> k` is an arithmetic shift, which rounds toward minus infinity as Dafny's `/` by
      a positive divisor does, and `x & 0xFF` keeps the low eight bits of the two's-complement
      representation, which is the Euclidean remainder `x % 256` whatever the sign of `x`. */
  function HexChannels(hex: Int64): (b: Bytes)
    ensures IsByte(b.red) && IsByte(b.green) && IsByte(b.blue)
    ensures b.red == (hex % 0x100_0000) / 0x1_0000
    ensures b.green == (hex % 0x1_0000) / 0x100
    ensures b.blue == hex % 0x100
  {
    Decompose(hex);
    Bytes((hex / 0x1_0000) % 0x100, (hex / 0x100) % 0x100, hex % 0x100)
  }

  /** The inverse of `HexChannels`: the integer `red * 2^16 + green * 2^8 + blue` whose bit
      ranges 16-23, 8-15 and 0-7 hold the three bytes. */
  function Pack(b: Bytes): (x: int)
    requires IsByte(b.red) && IsByte(b.green) && IsByte(b.blue)
    ensures 0 <= x < 0x100_0000
    ensures HexChannels(x) == b
  {
    var x := b.red * 0x1_0000 + b.green * 0x100 + b.blue;
    DivModUnique(b.green * 0x100 + b.blue, 0x100, b.green, b.blue);
    DivModUnique(x, 0x1_0000, b.red, b.green * 0x100 + b.blue);
    DivModUnique(x, 0x100_0000, 0, x);
    x
  }

  /** On 32-bit words, the or of bytes shifted by 16, 8 and 0 bits is their sum. */
  lemma OrOfShiftedBytesIsSum(r: bv32, g: bv32, b: bv32)
    requires r < 0x100 && g < 0x100 && b < 0x100
    ensures (r << 16) | (g << 8) | b == (r << 16) + (g << 8) + b
  {
  }

  /** Round trip: packing the extracted channels again gives `hex & 0xFFFFFF`. */
  lemma PackHexChannels(hex: Int64)
    ensures Pack(HexChannels(hex)) == hex % 0x100_0000
  {
    Decompose(hex);
  }

  /** Only the low 24 bits matter: `hex` and `hex & 0xFFFFFF` decode to the same colour. */
  lemma HighBitsIgnored(hex: Int64)
    ensures HexChannels(hex) == HexChannels(hex % 0x100_0000)
    ensures FromHex(hex) == FromHex(hex % 0x100_0000)
  {
    var low := hex % 0x100_0000;
    Decompose(hex);
    Decompose(low);
    DivModUnique(low, 0x100_0000, 0, low);
  }

  /** Euclidean division by a positive divisor has exactly one quotient and remainder. */
  lemma DivModUnique(x: int, d: int, q: int, r: int)
    requires d > 0 && x == q * d + r && 0 <= r < d
    ensures x / d == q && x % d == r
  {
    var q', r' := x / d, x % d;
    assert (q - q') * d == r' - r;
    if q > q' {
      MulAtLeast(q - q', d);
    } else if q < q' {
      MulAtLeast(q' - q, d);
    }
  }

  lemma MulAtLeast(k: int, d: int)
    requires k >= 1 && d > 0
    ensures k * d >= d
  {
  }

  /** `x` split into its three low bytes, each read the way `init(hex:)` reads it. */
  lemma Decompose(x: int)
    ensures var b := x % 0x100;
      var g := (x / 0x100) % 0x100;
      var r := (x / 0x1_0000) % 0x100;
      && x % 0x100_0000 == r * 0x1_0000 + g * 0x100 + b
      && (x % 0x100_0000) / 0x1_0000 == r
      && x % 0x1_0000 == g * 0x100 + b
      && (x % 0x1_0000) / 0x100 == g
  {
    var q, b := x / 0x100, x % 0x100;
    var q1, g := q / 0x100, q % 0x100;
    var q2, r := q1 / 0x100, q1 % 0x100;
    DivModUnique(x, 0x1_0000, q1, g * 0x100 + b);
    DivModUnique(x, 0x100_0000, q2, r * 0x1_0000 + g * 0x100 + b);
    DivModUnique(r * 0x1_0000 + g * 0x100 + b, 0x1_0000, r, g * 0x100 + b);
    DivModUnique(g * 0x100 + b, 0x100, g, b);
  }

  /** `init(red:green:blue:)`: each integer divided by 255, fully opaque. */
  function FromComponents(red: int, green: int, blue: int): (c: Color)
    ensures c.alpha == 1.0
    ensures c.red * 255.0 == red as real && c.green * 255.0 == green as real && c.blue * 255.0 == blue as real
    ensures IsByte(red) ==> 0.0 <= c.red <= 1.0
    ensures IsByte(green) ==> 0.0 <= c.green <= 1.0
    ensures IsByte(blue) ==> 0.0 <= c.blue <= 1.0
  {
    Color(red as real / 255.0, green as real / 255.0, blue as real / 255.0, 1.0)
  }

  /** `init(hex:)`: an opaque colour whose components are the hex channels scaled to [0, 1]. */
  function FromHex(hex: Int64): (c: Color)
    ensures c.alpha == 1.0
    ensures 0.0 <= c.red <= 1.0 && 0.0 <= c.green <= 1.0 && 0.0 <= c.blue <= 1.0
    ensures c.red * 255.0 == ((hex % 0x100_0000) / 0x1_0000) as real
    ensures c.green * 255.0 == ((hex % 0x1_0000) / 0x100) as real
    ensures c.blue * 255.0 == (hex % 0x100) as real
  {
    var b := HexChannels(hex);
    FromComponents(b.red, b.green, b.blue)
  }

  /** A negative `Int` decodes through its two's-complement bits: -1 is white, and the
      plain view's default ring background `0x2F1315` has channels 47, 19 and 21. */
  lemma HexExamples()
    ensures HexChannels(-1) == Bytes(255, 255, 255) && FromHex(-1) == Color(1.0, 1.0, 1.0, 1.0)
    ensures HexChannels(0x2F1315) == Bytes(0x2F, 0x13, 0x15)
  {
  }
}
