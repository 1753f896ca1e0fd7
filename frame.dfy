/** Frame capture: the raw framebuffer of the display process and its decoding
    into an upright 8-bit grayscale image (`encode_png` and `apply_curves`). */
module Frame {
  import opened Base

  /** The decoded image is REMARKABLE_WIDTH x REMARKABLE_HEIGHT pixels. */
  const REMARKABLE_WIDTH := 1404
  const REMARKABLE_HEIGHT := 1872

  /** The framebuffer window is read as WIDTH x HEIGHT samples of BYTES_PER_PIXEL bytes. */
  const WIDTH := 1872
  const HEIGHT := 1404
  const BYTES_PER_PIXEL := 2
  const WINDOW_BYTES := WIDTH * HEIGHT * BYTES_PER_PIXEL

  const PIXELS := REMARKABLE_WIDTH * REMARKABLE_HEIGHT

  /** The buffer `read_framebuffer` fills holds one two-byte sample per output pixel. */
  lemma WindowHoldsOneSamplePerPixel()
    ensures WINDOW_BYTES == 2 * PIXELS
  {
  }

  /** De-interleaving: each complete two-byte chunk contributes its second byte; an
      odd trailing byte is dropped. */
  function HighBytes(raw: seq<Byte>): (r: seq<Byte>)
    ensures |r| == |raw| / 2
    ensures forall i :: 0 <= i < |r| ==> r[i] == raw[2 * i + 1]
  {
    if |raw| < 2 then []
    else
      var rest := HighBytes(raw[2..]);
      assert forall i :: 0 <= i < |rest| ==> rest[i] == raw[2 * i + 3];
      [raw[1]] + rest
  }

  /** A buffer of the window's size de-interleaves to exactly one byte per pixel. */
  lemma WindowDecodesToOneBytePerPixel(raw: seq<Byte>)
    requires |raw| == WINDOW_BYTES
    ensures |HighBytes(raw)| == PIXELS
  {
  }

  /** `as u8` on a float: truncation toward zero, saturating at 0 and 255. */
  function SaturatingByte(v: real): (b: Byte)
    ensures v < 0.0 ==> b == 0
    ensures v >= 255.0 ==> b == 255
    ensures 0.0 <= v < 255.0 ==> b as real <= v < b as real + 1.0
  {
    if v < 0.0 then 0 else if v >= 255.0 then 255 else v.Floor
  }

  /** The tone curve: fractions below 0.045 become black, fractions from 0.06 up
      become white, and the band between is stretched linearly over the full range.
      Read in exact arithmetic, not in f32. */
  function ApplyCurves(value: Byte): (r: Byte)
    ensures value <= 11 ==> r == 0
    ensures value >= 16 ==> r == 255
    ensures 12 <= value <= 15 ==> 0 < r < 255
  {
    var normalized := value as real / 255.0;
    var adjusted :=
      if normalized < 0.045 then 0.0
      else if normalized < 0.06 then (normalized - 0.045) / (0.06 - 0.045)
      else 1.0;
    SaturatingByte(adjusted * 255.0)
  }

  /** The tone curve never darkens a brighter sample. */
  lemma ApplyCurvesMonotone(a: Byte, b: Byte)
    requires a <= b
    ensures ApplyCurves(a) <= ApplyCurves(b)
  {
    if 12 <= a && b <= 15 {
      var fa := ((a as real / 255.0 - 0.045) / (0.06 - 0.045)) * 255.0;
      var fb := ((b as real / 255.0 - 0.045) / (0.06 - 0.045)) * 255.0;
      assert 0.0 < fa <= fb < 255.0;
      assert fa.Floor <= fb.Floor;
    }
  }

  /** The de-interleaved sample shown at output pixel (x, y): the panel's memory is
      laid out in columns of REMARKABLE_HEIGHT samples, in reverse order both ways. */
  function SourceIndex(x: int, y: int): (k: int)
    ensures 0 <= x < REMARKABLE_WIDTH && 0 <= y < REMARKABLE_HEIGHT ==> 0 <= k < PIXELS
  {
    (REMARKABLE_HEIGHT - 1 - y) + (REMARKABLE_WIDTH - 1 - x) * REMARKABLE_HEIGHT
  }

  /** The row-major position of output pixel (x, y). */
  function DestIndex(x: int, y: int): (k: int)
    ensures 0 <= x < REMARKABLE_WIDTH && 0 <= y < REMARKABLE_HEIGHT ==> 0 <= k < PIXELS
  {
    GridIndex(x, y, REMARKABLE_WIDTH)
  }

  /** The output pixel whose value is read from sample `k`. */
  function SourcePixel(k: int): Point
  {
    (REMARKABLE_WIDTH - 1 - k / REMARKABLE_HEIGHT, REMARKABLE_HEIGHT - 1 - k % REMARKABLE_HEIGHT)
  }

  /** The output pixel stored at position `k`. */
  function DestPixel(k: int): Point
  {
    (k % REMARKABLE_WIDTH, k / REMARKABLE_WIDTH)
  }

  predicate InImage(p: Point)
  {
    0 <= p.0 < REMARKABLE_WIDTH && 0 <= p.1 < REMARKABLE_HEIGHT
  }

  /** `SourcePixel` undoes `SourceIndex`: no two output pixels read the same sample. */
  lemma {:induction false} SourceIndexInjective(x: int, y: int)
    requires InImage((x, y))
    ensures SourcePixel(SourceIndex(x, y)) == (x, y)
  {
    DivModOfSum(REMARKABLE_HEIGHT - 1 - y, REMARKABLE_WIDTH - 1 - x, REMARKABLE_HEIGHT);
  }

  /** Every sample of the frame is read, by the output pixel `SourcePixel` names. */
  lemma {:induction false} SourceIndexOnto(k: int)
    requires 0 <= k < PIXELS
    ensures InImage(SourcePixel(k)) && SourceIndex(SourcePixel(k).0, SourcePixel(k).1) == k
  {
    DivModBounds(k, REMARKABLE_HEIGHT, REMARKABLE_WIDTH);
  }

  /** `DestPixel` undoes `DestIndex`: no two output pixels share a position. */
  lemma {:induction false} DestIndexInjective(x: int, y: int)
    requires InImage((x, y))
    ensures DestPixel(DestIndex(x, y)) == (x, y)
  {
    DivModOfSum(x, y, REMARKABLE_WIDTH);
  }

  /** Every position of the output buffer is written, by the pixel `DestPixel` names. */
  lemma {:induction false} DestIndexOnto(k: int)
    requires 0 <= k < PIXELS
    ensures InImage(DestPixel(k)) && DestIndex(DestPixel(k).0, DestPixel(k).1) == k
  {
    DivModBounds(k, REMARKABLE_WIDTH, REMARKABLE_HEIGHT);
  }

  lemma DivModOfSum(a: int, b: int, n: int)
    requires 0 <= a < n
    ensures (a + b * n) / n == b && (a + b * n) % n == a
  {
    var q, r := (a + b * n) / n, (a + b * n) % n;
    assert q * n + r == a + b * n;
    if q > b {
      MulMonotone(b + 1, q, n);
    } else if q < b {
      MulMonotone(q, b - 1, n);
    }
  }

  lemma DivModBounds(k: int, n: int, m: int)
    requires 0 < n && 0 < m && 0 <= k < n * m
    ensures 0 <= k / n < m && 0 <= k % n < n && k == k % n + (k / n) * n
  {
    if k / n >= m {
      MulMonotone(m, k / n, n);
    }
  }

  /** A frame of zero bytes decodes to an all-black image. */
  lemma {:induction false} ZeroFrameIsBlack(raw: seq<Byte>, x: int, y: int)
    requires |raw| / 2 >= PIXELS && InImage((x, y))
    requires forall i :: 0 <= i < |raw| ==> raw[i] == 0
    ensures ApplyCurves(HighBytes(raw)[SourceIndex(x, y)]) == 0
  {
    var k := SourceIndex(x, y);
    assert HighBytes(raw)[k] == raw[2 * k + 1];
  }

  /** The pixel buffer `encode_png` hands to `GrayImage::from_raw`: every output pixel
      (x, y) holds the tone-curved sample read from the rotated position. The PNG
      encoding of the buffer is not modelled. The read always supplies WINDOW_BYTES
      bytes; a shorter buffer makes the source index out of bounds. */
  method DecodeFrame(raw: seq<Byte>) returns (processed: array<Byte>)
    requires |raw| / 2 >= PIXELS
    ensures fresh(processed)
    ensures processed.Length == PIXELS
    ensures forall x, y :: 0 <= x < REMARKABLE_WIDTH && 0 <= y < REMARKABLE_HEIGHT ==>
      processed[DestIndex(x, y)] == ApplyCurves(HighBytes(raw)[SourceIndex(x, y)])
  {
    var rawU8 := HighBytes(raw);
    processed := new Byte[PIXELS](_ => 0);
    var y := 0;
    while y < REMARKABLE_HEIGHT
      invariant 0 <= y <= REMARKABLE_HEIGHT
      invariant forall x', y' :: 0 <= x' < REMARKABLE_WIDTH && 0 <= y' < y ==>
        processed[DestIndex(x', y')] == ApplyCurves(rawU8[SourceIndex(x', y')])
    {
      var x := 0;
      while x < REMARKABLE_WIDTH
        invariant 0 <= x <= REMARKABLE_WIDTH
        invariant forall x', y' :: 0 <= x' < REMARKABLE_WIDTH && 0 <= y' < y ==>
          processed[DestIndex(x', y')] == ApplyCurves(rawU8[SourceIndex(x', y')])
        invariant forall x' :: 0 <= x' < x ==>
          processed[DestIndex(x', y)] == ApplyCurves(rawU8[SourceIndex(x', y)])
      {
        var srcIdx := SourceIndex(x, y);
        var dstIdx := DestIndex(x, y);
        processed[dstIdx] := ApplyCurves(rawU8[srcIdx]);
        x := x + 1;
      }
      y := y + 1;
    }
  }
}
