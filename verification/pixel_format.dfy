/**
  Utils::ConvertToRGBA: quantise four channels to bytes by truncation and
  pack them into one unsigned 32-bit word, red in the low byte.
 */
module PixelFormat {
  import opened Color

  type byte = bv8

  /** The four channels of a packed pixel, named by their bit offset. */
  datatype Channel = Red | Green | Blue | Alpha

  function Offset(ch: Channel): bv32 {
    match ch
    case Red => 0
    case Green => 8
    case Blue => 16
    case Alpha => 24
  }

  /** The byte of `p` that holds channel `ch`. */
  function ChannelOf(p: bv32, ch: Channel): byte {
    ((p >> Offset(ch)) & 0xFF) as byte
  }

  /** `R | G << 8 | B << 16 | A << 24` as an unsigned 32-bit word. */
  function Pack(r: byte, g: byte, b: byte, a: byte): (p: bv32)
    ensures ChannelOf(p, Red) == r
    ensures ChannelOf(p, Green) == g
    ensures ChannelOf(p, Blue) == b
    ensures ChannelOf(p, Alpha) == a
  {
    (a as bv32 << 24) | (b as bv32 << 16) | (g as bv32 << 8) | r as bv32
  }

  /** The reference decoder: split a word into its four channel bytes. */
  function Unpack(p: bv32): (bs: (byte, byte, byte, byte))
    ensures Pack(bs.0, bs.1, bs.2, bs.3) == p
  {
    (ChannelOf(p, Red), ChannelOf(p, Green), ChannelOf(p, Blue), ChannelOf(p, Alpha))
  }

  /** Decoding a packed word returns the bytes it was packed from. */
  lemma UnpackPack(r: byte, g: byte, b: byte, a: byte)
    ensures Unpack(Pack(r, g, b, a)) == (r, g, b, a)
  {
  }

  /** Packing is injective on byte 4-tuples. */
  lemma PackInjective(r: byte, g: byte, b: byte, a: byte, r': byte, g': byte, b': byte, a': byte)
    requires Pack(r, g, b, a) == Pack(r', g', b', a')
    ensures r == r' && g == g' && b == b' && a == a'
  {
    UnpackPack(r, g, b, a);
    UnpackPack(r', g', b', a');
  }

  /** uint8_t(c * 255.0f) for a channel in [0, 1]: truncation toward zero, which is the floor here. */
  function Quantise(c: real): (q: byte)
    requires InUnit(c)
    ensures q as real <= c * 255.0 < q as real + 1.0
  {
    (c * 255.0).Floor as byte
  }

  /** The value a quantised byte stands for, q / 255. */
  function Dequantise(q: byte): real {
    q as real / 255.0
  }

  /** Only a full channel reaches 255; zero maps to zero. */
  lemma QuantiseEnds(c: real)
    requires InUnit(c)
    ensures Quantise(c) == 255 <==> c == 1.0
    ensures Quantise(c) == 0 <==> c < 1.0 / 255.0
  {
  }

  /** Truncation, not rounding: a channel just below 255/255 still gives 254. */
  lemma QuantiseTruncates()
    ensures Quantise(254.9 / 255.0) == 254
  {
  }

  /** Decoding a quantised channel under-approximates it by less than 1/255. */
  lemma QuantiseRoundTrip(c: real)
    requires InUnit(c)
    ensures Dequantise(Quantise(c)) <= c < Dequantise(Quantise(c)) + 1.0 / 255.0
  {
  }

  /** Quantisation is monotone. */
  lemma QuantiseMonotone(c: real, d: real)
    requires InUnit(c) && InUnit(d) && c <= d
    ensures Quantise(c) <= Quantise(d)
  {
  }

  /** Utils::ConvertToRGBA on a colour whose channels are already clamped. */
  function ConvertToRgba(c: Rgba): (p: bv32)
    requires InGamut(c)
    ensures Unpack(p) == (Quantise(c.r), Quantise(c.g), Quantise(c.b), Quantise(c.a))
  {
    Pack(Quantise(c.r), Quantise(c.g), Quantise(c.b), Quantise(c.a))
  }

  /** An opaque colour (alpha 1) packs with top byte 0xFF. */
  lemma OpaqueTopByte(c: Rgba)
    requires InGamut(c)
    ensures c.a == 1.0 ==> ChannelOf(ConvertToRgba(c), Alpha) == 0xFF
    ensures c.a == 1.0 ==> ConvertToRgba(c) >= 0xFF00_0000
  {
  }
}
