/** The colour value type of nae-core: four real channels, conversions to and
    from channel arrays, and the 0xRRGGBBAA packing into a 32-bit word.
    f32 channels are modelled as exact reals; the integer side (shift, mask,
    truncating cast, wrapping add) is written out with div/mod by powers of two. */
module Colors {
  import opened Primitives

  /** The shift distances used by the packing. */
  type Shift = k: int | k == 0 || k == 8 || k == 16 || k == 24

  /** `[f32; 4]` and `[f32; 3]`. */
  type Rgba = s: seq<real> | |s| == 4 witness [0.0, 0.0, 0.0, 0.0]
  type Rgb = s: seq<real> | |s| == 3 witness [0.0, 0.0, 0.0]

  datatype Color = Color(r: real, g: real, b: real, a: real)

  const TRANSPARENT := Color(0.0, 0.0, 0.0, 0.0)
  const BLACK := Color(0.0, 0.0, 0.0, 1.0)

  /** Every channel lies in [0, 1]. */
  predicate InUnitRange(c: Color) {
    0.0 <= c.r <= 1.0 && 0.0 <= c.g <= 1.0 && 0.0 <= c.b <= 1.0 && 0.0 <= c.a <= 1.0
  }

  // ---------------------------------------------------------------------------
  // Constructors and channel access

  /** `Color::new` and `Color::from_rgba`. */
  function New(r: real, g: real, b: real, a: real): (c: Color)
    ensures ToRgba(c) == [r, g, b, a]
  {
    Color(r, g, b, a)
  }

  /** `Color::from_rgb`: the three channels given, alpha fully opaque. */
  function FromRgb(r: real, g: real, b: real): (c: Color)
    ensures c.a == 1.0
    ensures ToRgb(c) == [r, g, b]
  {
    New(r, g, b, 1.0)
  }

  /** `impl From<[f32; 4]> for Color`. */
  function FromRgbaArray(s: Rgba): (c: Color)
    ensures ToRgba(c) == s
  {
    New(s[0], s[1], s[2], s[3])
  }

  /** `impl From<[f32; 3]> for Color`. */
  function FromRgbArray(s: Rgb): (c: Color)
    ensures c.a == 1.0
    ensures ToRgb(c) == s
  {
    FromRgb(s[0], s[1], s[2])
  }

  /** `Color::to_rgba` and `impl From<Color> for [f32; 4]`. */
  function ToRgba(c: Color): (s: Rgba)
    ensures InUnitRange(c) <==> forall i :: 0 <= i < 4 ==> 0.0 <= s[i] <= 1.0
  {
    var s := [c.r, c.g, c.b, c.a];
    assert s[0] == c.r && s[1] == c.g && s[2] == c.b && s[3] == c.a;
    s
  }

  /** `Color::to_rgb`: the alpha channel is dropped. */
  function ToRgb(c: Color): (s: Rgb)
    ensures s == ToRgba(c)[..3]
  {
    [c.r, c.g, c.b]
  }

  /** `From<[f32; 4]>` and `to_rgba` are inverse to each other in both directions. */
  lemma RgbaArrayRoundTrip(c: Color, s: Rgba)
    ensures FromRgbaArray(ToRgba(c)) == c
    ensures ToRgba(FromRgbaArray(s)) == s
  {
  }

  /** `with_red`: index 0 of the channel array replaced. */
  function WithRed(c: Color, red: real): (d: Color)
    ensures ToRgba(d) == ToRgba(c)[0 := red]
  {
    New(red, c.g, c.b, c.a)
  }

  /** `with_green`: index 1 of the channel array replaced. */
  function WithGreen(c: Color, green: real): (d: Color)
    ensures ToRgba(d) == ToRgba(c)[1 := green]
  {
    New(c.r, green, c.b, c.a)
  }

  /** `with_blue`: index 2 of the channel array replaced. */
  function WithBlue(c: Color, blue: real): (d: Color)
    ensures ToRgba(d) == ToRgba(c)[2 := blue]
  {
    New(c.r, c.g, blue, c.a)
  }

  /** `with_alpha`: index 3 of the channel array replaced. */
  function WithAlpha(c: Color, alpha: real): (d: Color)
    ensures ToRgba(d) == ToRgba(c)[3 := alpha]
  {
    New(c.r, c.g, c.b, alpha)
  }

  // ---------------------------------------------------------------------------
  // 32-bit packing

  /** `(x >> k) & 0xFF`. */
  function ByteAt(x: U32, k: Shift): Byte {
    if k == 0 then x % 0x100
    else if k == 8 then (x / 0x100) % 0x100
    else if k == 16 then (x / 0x1_0000) % 0x100
    else (x / 0x100_0000) % 0x100
  }

  /** `x << k` on a u32: bits shifted past bit 31 are lost. */
  function ShiftLeft(x: U32, k: Shift): U32 {
    if k == 0 then x
    else if k == 8 then (x * 0x100) % 0x1_0000_0000
    else if k == 16 then (x * 0x1_0000) % 0x1_0000_0000
    else (x * 0x100_0000) % 0x1_0000_0000
  }

  /** `r << 24 | g << 16 | b << 8 | a` for bytes, whose fields never overlap. */
  function Pack(r: Byte, g: Byte, b: Byte, a: Byte): U32 {
    r * 0x100_0000 + g * 0x1_0000 + b * 0x100 + a
  }

  /** Reading the four fields back out of a packed word gives the bytes packed. */
  lemma PackBytes(r: Byte, g: Byte, b: Byte, a: Byte)
    ensures ByteAt(Pack(r, g, b, a), 24) == r
    ensures ByteAt(Pack(r, g, b, a), 16) == g
    ensures ByteAt(Pack(r, g, b, a), 8) == b
    ensures ByteAt(Pack(r, g, b, a), 0) == a
  {
    var p := Pack(r, g, b, a);
    assert p / 0x100 == r * 0x1_0000 + g * 0x100 + b;
    assert p / 0x1_0000 == r * 0x100 + g;
    assert p / 0x100_0000 == r;
  }

  /** Every word is the packing of its own four fields. */
  lemma UnpackWord(h: U32)
    ensures h == Pack(ByteAt(h, 24), ByteAt(h, 16), ByteAt(h, 8), ByteAt(h, 0))
  {
    var q1 := h / 0x100;
    var q2 := q1 / 0x100;
    var q3 := q2 / 0x100;
    assert h == q1 * 0x100 + h % 0x100;
    assert q1 == q2 * 0x100 + q1 % 0x100;
    assert q2 == q3 * 0x100 + q2 % 0x100;
    assert q3 < 0x100;
    assert h / 0x1_0000 == q2;
    assert h / 0x100_0000 == q3;
  }

  /** `hex_to_rgba`: R from bits 31..24, G from 23..16, B from 15..8, A from 7..0,
      each divided by 255. */
  function HexToRgba(hex: U32): (s: Rgba)
    ensures forall i :: 0 <= i < 4 ==> 0.0 <= s[i] <= 1.0
    ensures s[0] * 255.0 == ByteAt(hex, 24) as real && s[1] * 255.0 == ByteAt(hex, 16) as real
    ensures s[2] * 255.0 == ByteAt(hex, 8) as real && s[3] * 255.0 == ByteAt(hex, 0) as real
  {
    [ByteAt(hex, 24) as real / 255.0, ByteAt(hex, 16) as real / 255.0,
     ByteAt(hex, 8) as real / 255.0, ByteAt(hex, 0) as real / 255.0]
  }

  /** `Color::from_hex` and `impl From<u32> for Color`. */
  function FromHex(hex: U32): (c: Color)
    ensures InUnitRange(c)
    ensures ToRgba(c) == HexToRgba(hex)
  {
    FromRgbaArray(HexToRgba(hex))
  }

  /** `Color::from_bytes`: each byte divided by 255, so every channel lies in
      [0, 1] and 255 times a channel gives its byte back. */
  function FromBytes(r: Byte, g: Byte, b: Byte, a: Byte): (c: Color)
    ensures InUnitRange(c)
    ensures c.r * 255.0 == r as real && c.g * 255.0 == g as real
    ensures c.b * 255.0 == b as real && c.a * 255.0 == a as real
  {
    Color(r as real / 255.0, g as real / 255.0, b as real / 255.0, a as real / 255.0)
  }

  /** `from_bytes(r, g, b, a)` is the colour of the word packing r, g, b, a. */
  lemma FromBytesIsFromHex(r: Byte, g: Byte, b: Byte, a: Byte)
    ensures FromBytes(r, g, b, a) == FromHex(Pack(r, g, b, a))
  {
    PackBytes(r, g, b, a);
  }

  /** `x as u32` for a float: saturating at both ends, truncating toward zero. */
  function CastToU32(x: real): (n: U32)
    ensures 0.0 <= x < 0x1_0000_0000 as real ==> n as real <= x < n as real + 1.0
    ensures x <= 0.0 ==> n == 0
    ensures x >= 0xFFFF_FFFF as real ==> n == 0xFFFF_FFFF
  {
    if x <= 0.0 then 0
    else if x >= 0xFFFF_FFFF as real then 0xFFFF_FFFF
    else x.Floor
  }

  /** `(c * 255.0) as u32`, the integer field of one channel. */
  function ChannelField(c: real): U32 {
    CastToU32(c * 255.0)
  }

  /** `rgba_to_hex`: each channel times 255 truncated into its byte position;
      the `+` combination wraps modulo 2^32. */
  function RgbaToHex(r: real, g: real, b: real, a: real): (h: U32)
    ensures 0.0 <= r <= 1.0 && 0.0 <= g <= 1.0 && 0.0 <= b <= 1.0 && 0.0 <= a <= 1.0 ==>
              h == Pack(ChannelField(r), ChannelField(g), ChannelField(b), ChannelField(a))
  {
    var h := (ShiftLeft(ChannelField(r), 24) + ShiftLeft(ChannelField(g), 16)
              + ShiftLeft(ChannelField(b), 8) + ChannelField(a)) % 0x1_0000_0000;
    if 0.0 <= r <= 1.0 && 0.0 <= g <= 1.0 && 0.0 <= b <= 1.0 && 0.0 <= a <= 1.0 then
      UnitChannelFitsByte(r);
      UnitChannelFitsByte(g);
      UnitChannelFitsByte(b);
      UnitChannelFitsByte(a);
      ShiftedBytesDoNotCarry(ChannelField(r), ChannelField(g), ChannelField(b), ChannelField(a));
      h
    else
      h
  }

  /** `Color::to_hex`: for a colour in the unit range, the word whose fields
      are the four channels times 255, truncated. */
  function ToHex(c: Color): (h: U32)
    ensures InUnitRange(c) ==> h == Pack(ChannelField(c.r), ChannelField(c.g), ChannelField(c.b), ChannelField(c.a))
  {
    RgbaToHex(c.r, c.g, c.b, c.a)
  }

  /** A channel in [0, 1] truncates to a byte. */
  lemma UnitChannelFitsByte(x: real)
    requires 0.0 <= x <= 1.0
    ensures ChannelField(x) < 0x100
    ensures ChannelField(x) == (x * 255.0).Floor
  {
  }

  /** A channel holding byte/255 gives the byte back exactly. */
  lemma ByteChannelField(x: Byte)
    ensures ChannelField(x as real / 255.0) == x
  {
    assert (x as real / 255.0) * 255.0 == x as real;
  }

  /** Shifting four bytes into place and adding never carries. */
  lemma ShiftedBytesDoNotCarry(r: Byte, g: Byte, b: Byte, a: Byte)
    ensures (ShiftLeft(r, 24) + ShiftLeft(g, 16) + ShiftLeft(b, 8) + a) % 0x1_0000_0000 == Pack(r, g, b, a)
  {
    assert ShiftLeft(r, 24) == r * 0x100_0000;
    assert ShiftLeft(g, 16) == g * 0x1_0000;
    assert ShiftLeft(b, 8) == b * 0x100;
  }

  /** For channels in [0, 1] each field fits in 8 bits, so the additions never
      carry and the word holds exactly the four truncated channels. */
  lemma RgbaToHexFields(c: Color)
    requires InUnitRange(c)
    ensures ByteAt(ToHex(c), 24) == (c.r * 255.0).Floor
    ensures ByteAt(ToHex(c), 16) == (c.g * 255.0).Floor
    ensures ByteAt(ToHex(c), 8) == (c.b * 255.0).Floor
    ensures ByteAt(ToHex(c), 0) == (c.a * 255.0).Floor
  {
    UnitChannelFitsByte(c.r);
    UnitChannelFitsByte(c.g);
    UnitChannelFitsByte(c.b);
    UnitChannelFitsByte(c.a);
    var r, g, b, a := ChannelField(c.r), ChannelField(c.g), ChannelField(c.b), ChannelField(c.a);
    ShiftedBytesDoNotCarry(r, g, b, a);
    PackBytes(r, g, b, a);
  }

  /** With exact channels, unpacking a word and packing it again is the identity. */
  lemma HexRoundTrip(h: U32)
    ensures ToHex(FromHex(h)) == h
  {
    var r, g, b, a := ByteAt(h, 24), ByteAt(h, 16), ByteAt(h, 8), ByteAt(h, 0);
    var c := FromHex(h);
    assert c.r == r as real / 255.0 && c.g == g as real / 255.0;
    assert c.b == b as real / 255.0 && c.a == a as real / 255.0;
    ByteChannelField(r);
    ByteChannelField(g);
    ByteChannelField(b);
    ByteChannelField(a);
    assert ToHex(c) == (ShiftLeft(r, 24) + ShiftLeft(g, 16) + ShiftLeft(b, 8) + a) % 0x1_0000_0000;
    ShiftedBytesDoNotCarry(r, g, b, a);
    UnpackWord(h);
  }

  /** Packing a colour and unpacking it truncates each channel down to a multiple of 1/255. */
  lemma HexQuantizes(c: Color)
    requires InUnitRange(c)
    ensures FromHex(ToHex(c)) == Color((c.r * 255.0).Floor as real / 255.0, (c.g * 255.0).Floor as real / 255.0,
                                       (c.b * 255.0).Floor as real / 255.0, (c.a * 255.0).Floor as real / 255.0)
  {
    RgbaToHexFields(c);
  }

  // ---------------------------------------------------------------------------
  // Hexadecimal text

  predicate IsUpperHexDigit(ch: char) {
    '0' <= ch <= '9' || 'A' <= ch <= 'F'
  }

  /** The upper-case digit for a value below 16. */
  function HexDigit(d: nat): (ch: char)
    requires d < 16
    ensures IsUpperHexDigit(ch)
  {
    if d < 10 then ('0' as int + d) as char else ('A' as int + d - 10) as char
  }

  function DigitValue(ch: char): (d: nat)
    requires IsUpperHexDigit(ch)
    ensures d < 16 && HexDigit(d) == ch
  {
    if '0' <= ch <= '9' then (ch as int - '0' as int) else (ch as int - 'A' as int + 10)
  }

  lemma DigitValueOfDigit(d: nat)
    requires d < 16
    ensures DigitValue(HexDigit(d)) == d
  {
  }

  /** The digits of `n` in upper-case base 16, most significant first, without padding. */
  function HexDigits(n: nat): (s: string)
    ensures |s| >= 1
    ensures forall i :: 0 <= i < |s| ==> IsUpperHexDigit(s[i])
    ensures s[0] == '0' ==> n == 0
  {
    if n < 16 then [HexDigit(n)] else HexDigits(n / 16) + [HexDigit(n % 16)]
  }

  /** The value of a string of upper-case hexadecimal digits. */
  function ParseHexDigits(s: string): nat
    requires forall i :: 0 <= i < |s| ==> IsUpperHexDigit(s[i])
  {
    if |s| == 0 then 0 else ParseHexDigits(s[..|s| - 1]) * 16 + DigitValue(s[|s| - 1])
  }

  lemma {:induction false} HexDigitsRoundTrip(n: nat)
    ensures ParseHexDigits(HexDigits(n)) == n
  {
    var s := HexDigits(n);
    if n < 16 {
      DigitValueOfDigit(n);
      assert s[..|s| - 1] == [];
    } else {
      HexDigitsRoundTrip(n / 16);
      DigitValueOfDigit(n % 16);
      assert s[..|s| - 1] == HexDigits(n / 16);
    }
  }

  /** `hex_to_string` (format `{:#X}`): "0x" followed by the upper-case digits of
      the word without zero padding, from which the word can be read back. */
  function HexToString(hex: U32): (s: string)
    ensures |s| >= 3 && s[..2] == "0x"
    ensures forall i :: 2 <= i < |s| ==> IsUpperHexDigit(s[i])
    ensures ParseHexDigits(s[2..]) == hex
    ensures s[2] == '0' ==> s == "0x0"
  {
    HexDigitsRoundTrip(hex);
    var s := "0x" + HexDigits(hex);
    assert s[2..] == HexDigits(hex);
    s
  }

  /** `Color::to_hex_string`. */
  function ToHexString(c: Color): (s: string)
    ensures |s| >= 3 && s[..2] == "0x"
    ensures forall i :: 2 <= i < |s| ==> IsUpperHexDigit(s[i])
    ensures ParseHexDigits(s[2..]) == ToHex(c)
    ensures s[2] == '0' ==> s == "0x0"
  {
    HexToString(ToHex(c))
  }

  /** The rendering is not the `#RRGGBBAA` form: opaque black is "0xFF". */
  lemma HexStringOfOpaqueBlack()
    ensures ToHexString(BLACK) == "0xFF"
  {
    assert ChannelField(0.0) == 0 && ChannelField(1.0) == 0xFF;
    assert ToHex(BLACK) == 0xFF;
    assert HexDigit(15) == 'F';
    assert HexDigits(0xFF) == HexDigits(0xF) + "F";
  }
}
