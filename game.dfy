/** The game side of the platform interface (`src/raika.cpp`): a renderer that
    fills the pixel buffer with a scrolling gradient, a tone writer that fills
    the sound buffer and keeps a wrapping phase counter, and the per-frame
    update that moves the two persistent offsets. */
module Game {
  import opened CInt
  import opened GameTypes

  // ---------------------------------------------------------------------------
  // Pixel values and their byte layout
  // ---------------------------------------------------------------------------

  /** `(red << 16) | (green << 8) | blue` for 8-bit channels, written as a
      sum: the three fields occupy disjoint bytes (PackOrLayout for the OR,
      PackBytes for the sum), so the two agree byte for byte. */
  function PackXrgb(red: Byte, green: Byte, blue: Byte): (p: int)
    ensures 0 <= p < 0x100_0000
  {
    red * 0x1_0000 + green * 0x100 + blue
  }

  /** The source's OR on 32-bit words: blue lands in byte 0, green in byte 1,
      red in byte 2, and the top byte is zero, the layout PackBytes proves of
      PackXrgb. */
  lemma PackOrLayout(red: bv32, green: bv32, blue: bv32)
    requires red < 256 && green < 256 && blue < 256
    ensures var p := (red << 16) | (green << 8) | blue;
      p & 0xFF == blue && (p >> 8) & 0xFF == green && (p >> 16) & 0xFF == red && p >> 24 == 0
  {
  }

  /** The pixel RenderGradient stores in column x of row y: blue is
      `(uint8_t)(x + xoffset)`, green is `(uint8_t)(y + yoffset)`, red is 0. */
  function GradientPixel(x: int, y: int, xoffset: int, yoffset: int): int
  {
    PackXrgb(0, (y + yoffset) % 256, (x + xoffset) % 256)
  }

  /** Byte j (0 is the lowest) of a 32-bit value stored little-endian. */
  function StoredByte(p: int, j: int): Byte
    requires 0 <= p < TWO_32 && 0 <= j < 4
  {
    if j == 0 then p % 0x100
    else if j == 1 then p / 0x100 % 0x100
    else if j == 2 then p / 0x1_0000 % 0x100
    else p / 0x100_0000
  }

  /** The little-endian 32-bit value at byte offset o. */
  function Load32(s: seq<Byte>, o: int): int
    requires 0 <= o && o + 4 <= |s|
  {
    s[o] as int + 0x100 * (s[o + 1] as int) + 0x1_0000 * (s[o + 2] as int) + 0x100_0000 * (s[o + 3] as int)
  }

  /** The three channels land in disjoint bytes of the packed value: blue in
      byte 0, green in byte 1, red in byte 2, and byte 3 is zero, which is
      why `(red << 16) | (green << 8) | blue` is the sum PackXrgb computes. */
  lemma PackBytes(red: Byte, green: Byte, blue: Byte)
    ensures StoredByte(PackXrgb(red, green, blue), 0) == blue
    ensures StoredByte(PackXrgb(red, green, blue), 1) == green
    ensures StoredByte(PackXrgb(red, green, blue), 2) == red
    ensures StoredByte(PackXrgb(red, green, blue), 3) == 0
  {
    var p := PackXrgb(red, green, blue);
    DivModUnique(p, 0x100, red * 0x100 + green, blue);
    DivModUnique(red * 0x100 + green, 0x100, red, green);
    DivModUnique(p, 0x1_0000, red, green * 0x100 + blue);
    DivModUnique(red, 0x100, 0, red);
    DivModUnique(p, 0x100_0000, 0, p);
  }

  /** Loading the four stored bytes gives the stored value back. */
  lemma StoreLoad(s: seq<Byte>, o: int, p: int)
    requires 0 <= o && o + 4 <= |s| && 0 <= p < TWO_32
    requires s[o] == StoredByte(p, 0) && s[o + 1] == StoredByte(p, 1)
    requires s[o + 2] == StoredByte(p, 2) && s[o + 3] == StoredByte(p, 3)
    ensures Load32(s, o) == p
  {
    var q1 := p / 0x100;
    var q2 := q1 / 0x100;
    assert p == q1 * 0x100 + p % 0x100;
    assert q1 == q2 * 0x100 + q1 % 0x100;
    assert q2 == q2 / 0x100 * 0x100 + q2 % 0x100;
    DivDiv(p, 0x100, 0x100);
    DivDiv(p, 0x1_0000, 0x100);
  }

  // ---------------------------------------------------------------------------
  // Pixel buffer geometry
  // ---------------------------------------------------------------------------

  /** What RenderGradient needs of its buffer: rows of `pitch` bytes that do
      not overlap (`pitch >= 4 * width`), and memory that reaches the last
      pixel of the last row. With no rows or no columns nothing is written. */
  predicate Drawable(b: GraphicsBuffer)
  {
    b.width <= 0 || b.height <= 0 ||
    (0 <= b.base && 4 * b.width <= b.pitch &&
     b.base + (b.height - 1) * b.pitch + 4 * b.width <= b.memory.Length)
  }

  /** The number of bytes from the first pixel to just past the last one. */
  function ImageSpan(b: GraphicsBuffer): int
  {
    if b.width <= 0 || b.height <= 0 then 0 else (b.height - 1) * b.pitch + 4 * b.width
  }

  /** Index of byte c of row y. */
  function RowByte(b: GraphicsBuffer, y: int, c: int): int
  {
    b.base + y * b.pitch + c
  }

  /** Index of byte j of the pixel in column x of row y. */
  function PixelByte(b: GraphicsBuffer, y: int, x: int, j: int): int
  {
    RowByte(b, y, 4 * x + j)
  }

  lemma PixelInRange(b: GraphicsBuffer, y: int, x: int, j: int)
    requires Drawable(b)
    requires 0 <= y < b.height && 0 <= x < b.width && 0 <= j < 4
    ensures 0 <= PixelByte(b, y, x, j) < b.base + ImageSpan(b) <= b.memory.Length
  {
    MulLe(0, y, b.pitch);
    MulLe(y, b.height - 1, b.pitch);
  }

  /** Every byte of row y' < y lies before the start of row y. */
  lemma RowBefore(b: GraphicsBuffer, y': int, y: int, c: int)
    requires 0 <= y' < y && 0 <= c < b.pitch
    ensures RowByte(b, y', c) < RowByte(b, y, 0)
  {
    MulLe(y' + 1, y, b.pitch);
    assert (y' + 1) * b.pitch == y' * b.pitch + b.pitch;
  }

  // ---------------------------------------------------------------------------
  // What RenderGradient leaves in memory
  // ---------------------------------------------------------------------------

  /** The four bytes of every pixel of rows [0, rows) hold the gradient pixel. */
  ghost predicate PixelsDone(b: GraphicsBuffer, after: seq<Byte>, rows: int, xoffset: int, yoffset: int)
  {
    forall y, x, j ::
      (0 <= y < rows && 0 <= x < b.width && 0 <= j < 4 && 0 <= PixelByte(b, y, x, j) < |after|) ==>
      after[PixelByte(b, y, x, j)] == StoredByte(GradientPixel(x, y, xoffset, yoffset), j)
  }

  /** The padding bytes [4 * width, pitch) of rows [0, rows) are untouched. */
  ghost predicate PaddingKept(b: GraphicsBuffer, before: seq<Byte>, after: seq<Byte>, rows: int)
    requires |before| == |after|
  {
    forall y, c ::
      (0 <= y < rows && 4 * b.width <= c < b.pitch && 0 <= RowByte(b, y, c) < |after|) ==>
      after[RowByte(b, y, c)] == before[RowByte(b, y, c)]
  }

  /** Bytes before `b.base` and from `from` on are untouched. */
  ghost predicate UntouchedFrom(b: GraphicsBuffer, before: seq<Byte>, after: seq<Byte>, from: int)
    requires |before| == |after|
  {
    forall k :: 0 <= k < |after| && (k < b.base || from <= k) ==> after[k] == before[k]
  }

  /** The pixels of columns [0, cols) of row y hold the gradient pixel. */
  ghost predicate ColumnsDone(b: GraphicsBuffer, after: seq<Byte>, y: int, cols: int, xoffset: int, yoffset: int)
  {
    forall x, j ::
      (0 <= x < cols && 0 <= j < 4 && 0 <= PixelByte(b, y, x, j) < |after|) ==>
      after[PixelByte(b, y, x, j)] == StoredByte(GradientPixel(x, y, xoffset, yoffset), j)
  }

  /** `after` differs from `before` at most in [lo, hi). */
  ghost predicate KeptOutside(before: seq<Byte>, after: seq<Byte>, lo: int, hi: int)
    requires |before| == |after|
  {
    forall k :: 0 <= k < |after| && !(lo <= k < hi) ==> after[k] == before[k]
  }

  /** Storing the gradient pixel of column x, and nothing else, extends the
      columns done by one. */
  lemma ColumnDone(b: GraphicsBuffer, start: seq<Byte>, after: seq<Byte>,
                   y: int, x: int, xoffset: int, yoffset: int)
    requires |start| == |after| && 0 <= x
    requires ColumnsDone(b, start, y, x, xoffset, yoffset)
    requires forall j :: 0 <= j < 4 ==>
      0 <= PixelByte(b, y, x, j) < |after| &&
      after[PixelByte(b, y, x, j)] == StoredByte(GradientPixel(x, y, xoffset, yoffset), j)
    requires KeptOutside(start, after, PixelByte(b, y, x, 0), PixelByte(b, y, x, 0) + 4)
    ensures ColumnsDone(b, after, y, x + 1, xoffset, yoffset)
  {
    forall x', j | 0 <= x' < x + 1 && 0 <= j < 4 && 0 <= PixelByte(b, y, x', j) < |after|
      ensures after[PixelByte(b, y, x', j)] == StoredByte(GradientPixel(x', y, xoffset, yoffset), j)
    {
      if x' < x {
        assert PixelByte(b, y, x', j) < PixelByte(b, y, x, 0);
      }
    }
  }

  /** Drawing the pixels of row y, and nothing else, extends the rows done
      by one: the earlier rows and their padding lie before row y. */
  lemma RowDone(b: GraphicsBuffer, before: seq<Byte>, start: seq<Byte>, after: seq<Byte>,
                y: int, xoffset: int, yoffset: int)
    requires Drawable(b) && 0 < b.width && 0 <= y < b.height
    requires |before| == |start| == |after|
    requires PixelsDone(b, start, y, xoffset, yoffset) && PaddingKept(b, before, start, y)
    requires UntouchedFrom(b, before, start, RowByte(b, y, 0))
    requires ColumnsDone(b, after, y, b.width, xoffset, yoffset)
    requires KeptOutside(start, after, RowByte(b, y, 0), RowByte(b, y, 4 * b.width))
    ensures PixelsDone(b, after, y + 1, xoffset, yoffset) && PaddingKept(b, before, after, y + 1)
    ensures UntouchedFrom(b, before, after, RowByte(b, y + 1, 0))
  {
    var r0 := RowByte(b, y, 0);
    MulLe(0, y, b.pitch);
    assert RowByte(b, y + 1, 0) == r0 + b.pitch;
    forall y', x, j | 0 <= y' < y + 1 && 0 <= x < b.width && 0 <= j < 4 && 0 <= PixelByte(b, y', x, j) < |after|
      ensures after[PixelByte(b, y', x, j)] == StoredByte(GradientPixel(x, y', xoffset, yoffset), j)
    {
      if y' < y {
        RowBefore(b, y', y, 4 * x + j);
      }
    }
    forall y', c | 0 <= y' < y + 1 && 4 * b.width <= c < b.pitch && 0 <= RowByte(b, y', c) < |after|
      ensures after[RowByte(b, y', c)] == before[RowByte(b, y', c)]
    {
      if y' < y {
        RowBefore(b, y', y, c);
      }
    }
  }

  /** Once every row is drawn, the last row's padding and everything past
      it are the only bytes beyond the image span, and they are untouched. */
  lemma GradientComplete(b: GraphicsBuffer, before: seq<Byte>, after: seq<Byte>,
                         rows: int, xoffset: int, yoffset: int)
    requires Drawable(b) && 0 < b.width && |before| == b.memory.Length && |after| == |before|
    requires 0 <= rows && (rows == 0 || rows <= b.height) && b.height <= rows
    requires PixelsDone(b, after, rows, xoffset, yoffset) && PaddingKept(b, before, after, rows)
    requires UntouchedFrom(b, before, after, RowByte(b, rows, 0))
    ensures IsGradient(b, before, after, xoffset, yoffset)
  {
    forall k | 0 <= k < |after| && !(b.base <= k < b.base + ImageSpan(b))
      ensures after[k] == before[k]
    {
      if 0 < b.height && b.base <= k {
        var c := k - b.base - (b.height - 1) * b.pitch;
        if c < b.pitch {
          assert RowByte(b, b.height - 1, c) == k;
        }
      }
    }
  }

  /** `after` is `before` with the gradient for the given offsets drawn into
      buffer b: each pixel holds GradientPixel, the row padding and every
      byte outside [base, base + ImageSpan) keep their old value. */
  ghost predicate IsGradient(b: GraphicsBuffer, before: seq<Byte>, after: seq<Byte>, xoffset: int, yoffset: int)
  {
    |before| == b.memory.Length && |after| == |before| &&
    PixelsDone(b, after, b.height, xoffset, yoffset) &&
    PaddingKept(b, before, after, b.height) &&
    forall k :: 0 <= k < |after| && !(b.base <= k < b.base + ImageSpan(b)) ==> after[k] == before[k]
  }

  /** `RenderGradient`: rows are `pitch` bytes apart, each holds `width`
      consecutive 4-byte pixels written through an advancing pointer. */
  method RenderGradient(buffer: GraphicsBuffer, xoffset: int, yoffset: int)
    requires Drawable(buffer)
    modifies buffer.memory
    ensures IsGradient(buffer, old(buffer.memory[..]), buffer.memory[..], xoffset, yoffset)
  {
    var a := buffer.memory;
    var row := buffer.base;
    var y := 0;
    while y < buffer.height
      invariant 0 <= y && (y == 0 || y <= buffer.height)
      invariant row == RowByte(buffer, y, 0)
      invariant buffer.width <= 0 ==> a[..] == old(a[..])
      invariant 0 < buffer.width ==> PixelsDone(buffer, a[..], y, xoffset, yoffset)
      invariant 0 < buffer.width ==> PaddingKept(buffer, old(a[..]), a[..], y)
      invariant 0 < buffer.width ==> UntouchedFrom(buffer, old(a[..]), a[..], row)
    {
      ghost var start := a[..];
      var pixel := row;
      var x := 0;
      while x < buffer.width
        invariant 0 <= x && (x == 0 || x <= buffer.width)
        invariant pixel == row + 4 * x
        invariant KeptOutside(start, a[..], row, pixel)
        invariant ColumnsDone(buffer, a[..], y, x, xoffset, yoffset)
      {
        PixelInRange(buffer, y, x, 0);
        PixelInRange(buffer, y, x, 3);
        var blue: Byte := (x + xoffset) % 256;
        var green: Byte := (y + yoffset) % 256;
        var red: Byte := 0;
        var value := PackXrgb(red, green, blue);
        ghost var prev := a[..];
        // *pixel++ = value, a little-endian uint32_t
        a[pixel] := StoredByte(value, 0);
        a[pixel + 1] := StoredByte(value, 1);
        a[pixel + 2] := StoredByte(value, 2);
        a[pixel + 3] := StoredByte(value, 3);
        ColumnDone(buffer, prev, a[..], y, x, xoffset, yoffset);
        pixel := pixel + 4;
        x := x + 1;
      }
      if 0 < buffer.width {
        RowDone(buffer, old(a[..]), start, a[..], y, xoffset, yoffset);
      } else {
        assert a[..] == start;
      }
      row := row + buffer.pitch;
      y := y + 1;
    }
    if 0 < buffer.width {
      GradientComplete(buffer, old(a[..]), a[..], y, xoffset, yoffset);
    }
  }

  // ---------------------------------------------------------------------------
  // Properties of the rendered image
  // ---------------------------------------------------------------------------

  /** The 32-bit pixel at byte offset y*pitch + 4x is
      `(((y + yoffset) mod 256) << 8) | ((x + xoffset) mod 256)`: red and the
      top byte are zero, so it is below 2^16. */
  lemma GradientPixelAt(b: GraphicsBuffer, before: seq<Byte>, after: seq<Byte>,
                        xoffset: int, yoffset: int, y: int, x: int)
    requires Drawable(b) && IsGradient(b, before, after, xoffset, yoffset)
    requires 0 <= y < b.height && 0 <= x < b.width
    ensures 0 <= PixelByte(b, y, x, 0) && PixelByte(b, y, x, 0) + 4 <= |after|
    ensures Load32(after, PixelByte(b, y, x, 0)) == (y + yoffset) % 256 * 0x100 + (x + xoffset) % 256
    ensures Load32(after, PixelByte(b, y, x, 0)) < 0x1_0000
    ensures after[PixelByte(b, y, x, 2)] == 0 && after[PixelByte(b, y, x, 3)] == 0
  {
    var o := PixelByte(b, y, x, 0);
    PixelInRange(b, y, x, 0);
    PixelInRange(b, y, x, 1);
    PixelInRange(b, y, x, 2);
    PixelInRange(b, y, x, 3);
    assert PixelByte(b, y, x, 1) == o + 1 && PixelByte(b, y, x, 2) == o + 2 && PixelByte(b, y, x, 3) == o + 3;
    StoreLoad(after, o, GradientPixel(x, y, xoffset, yoffset));
  }

  /** Offsets that agree modulo 256 give the same channel values. */
  lemma ChannelCongruent(v: int, o1: int, o2: int)
    requires (o1 - o2) % 256 == 0
    ensures (v + o1) % 256 == (v + o2) % 256
  {
    ModAddMultiple(v + o2, (o1 - o2) / 256, 256);
  }

  /** Every byte of the image span is byte c of some row y: a pixel byte
      when c < 4 * width, a padding byte otherwise. */
  lemma SpanByte(b: GraphicsBuffer, k: int) returns (y: int, c: int)
    requires Drawable(b) && b.base <= k < b.base + ImageSpan(b)
    ensures 0 <= y < b.height && 0 <= c < b.pitch && k == RowByte(b, y, c)
  {
    var p := b.pitch;
    var off := k - b.base;
    y, c := off / p, off % p;
    assert off == y * p + c;
    assert (b.height - 1) * p + p == b.height * p;
    MulCancelLt(y, b.height, p);
  }

  /** The rendered buffer is a function of the old contents and of the
      offsets modulo 256: two renderings from the same memory with offsets
      that agree modulo 256 are byte-for-byte identical. In particular
      `xoffset` and `xoffset + 256` draw the same image. */
  lemma {:induction false} GradientDetermined(b: GraphicsBuffer, before: seq<Byte>, s1: seq<Byte>, s2: seq<Byte>,
                                              xo1: int, yo1: int, xo2: int, yo2: int)
    requires Drawable(b)
    requires (xo1 - xo2) % 256 == 0 && (yo1 - yo2) % 256 == 0
    requires IsGradient(b, before, s1, xo1, yo1) && IsGradient(b, before, s2, xo2, yo2)
    ensures s1 == s2
  {
    forall k | 0 <= k < |s1| ensures s1[k] == s2[k]
    {
      if b.base <= k < b.base + ImageSpan(b) {
        var y, c := SpanByte(b, k);
        if c < 4 * b.width {
          var x, j := c / 4, c % 4;
          assert k == PixelByte(b, y, x, j);
          ChannelCongruent(x, xo1, xo2);
          ChannelCongruent(y, yo1, yo2);
          assert GradientPixel(x, y, xo1, yo1) == GradientPixel(x, y, xo2, yo2);
        }
      }
    }
  }

  /** The offsets are C `int`s that `+= 10` every frame; wrapping them at 32
      bits changes them by a multiple of 2^32, hence of 256, so by
      GradientDetermined the image is the same as with the unbounded value. */
  lemma OffsetWrapHarmless(offset: int)
    ensures (U32ToInt32(WrapU32(offset)) - offset) % 256 == 0
  {
    var w := WrapU32(offset);
    var r := U32ToInt32(w);
    var k1 := (offset - w) / TWO_32;
    var k2 := (w - r) / TWO_32;
    assert offset - w == k1 * TWO_32;
    assert w - r == k2 * TWO_32;
    ModAddMultiple(0, -(k1 + k2) * 0x100_0000, 256);
  }

  // ---------------------------------------------------------------------------
  // Sound: the phase counter
  // ---------------------------------------------------------------------------

  /** `buffer->samplesPerSecond / waveHz`, a C division. */
  function WavePeriod(samplesPerSecond: int, waveHz: int): int
    requires waveHz != 0
  {
    CDiv(samplesPerSecond, waveHz)
  }

  /** `currentAudioPos++`, then back to 0 if it reached the period. */
  function PhaseStep(pos: int, period: int): int
  {
    if pos + 1 == period then 0 else pos + 1
  }

  /** The phase counter after n samples. */
  function Phase(pos: int, period: int, n: int): int
    decreases n
  {
    if n <= 0 then pos else PhaseStep(Phase(pos, period, n - 1), period)
  }

  /** Started inside [0, period), the counter stays there and is the old
      value plus the number of samples, modulo the period. */
  lemma {:induction false} PhaseClosedForm(pos: int, period: int, n: int)
    requires 0 <= pos < period && 0 <= n
    ensures Phase(pos, period, n) == (pos + n) % period
    ensures 0 <= Phase(pos, period, n) < period
  {
    if n == 0 {
      DivModUnique(pos, period, 0, pos);
    } else {
      PhaseClosedForm(pos, period, n - 1);
      ModSucc(pos + n - 1, period);
    }
  }

  // ---------------------------------------------------------------------------
  // Sound: what GameOutputSound leaves in memory
  // ---------------------------------------------------------------------------

  /** Byte b (0 is the lowest) of v in two's complement: what
      `memcpy(bufferPointer, &writeValue, bytesPerSample)` copies out of the
      int64 `writeValue` on a little-endian machine. */
  function SampleByte(v: int, b: nat): Byte
  {
    v / Pow(256, b) % 256
  }

  /** The number of bytes GameOutputSound writes. */
  function SoundSpan(s: SoundBuffer): int
  {
    if s.samplesRequested <= 0 then 0 else s.samplesRequested * (s.channels * s.bytesPerSample)
  }

  /** What GameOutputSound needs of its buffer: non-negative counts, samples
      no wider than the int64 they are copied from, and memory for every byte
      it writes. */
  predicate Audible(s: SoundBuffer)
  {
    0 <= s.channels && 0 <= s.bytesPerSample <= 8 &&
    (SoundSpan(s) == 0 || (s.memory != null && SoundSpan(s) <= s.memory.Length))
  }

  /** The byte at flat offset k of the written region: byte k mod
      bytesPerSample of the sample of frame k / (channels * bytesPerSample). */
  function ToneByte(s: SoundBuffer, pos: int, period: int, sample: (int, int) -> int, k: int): Byte
    requires 0 < s.channels && 0 < s.bytesPerSample && 0 <= k
  {
    SampleByte(sample(Phase(pos, period, k / (s.channels * s.bytesPerSample)), period), k % s.bytesPerSample)
  }

  /** `after` is `before` with its first n bytes replaced by their ToneByte. */
  ghost predicate TonePrefix(s: SoundBuffer, before: seq<Byte>, after: seq<Byte>,
                             pos: int, period: int, sample: (int, int) -> int, n: int)
  {
    |after| == |before| &&
    forall k :: 0 <= k < |after| ==>
      after[k] == (if 0 < s.channels && 0 < s.bytesPerSample && k < n
                   then ToneByte(s, pos, period, sample, k) else before[k])
  }

  /** `after` is `before` with the tone written from the start of the buffer:
      every byte below SoundSpan is its ToneByte, every other byte is kept.
      `sample(pos, period)` stands for the int64 value the source computes
      from the phase with `sinf`. */
  ghost predicate ToneWritten(s: SoundBuffer, before: seq<Byte>, after: seq<Byte>,
                              pos: int, period: int, sample: (int, int) -> int)
  {
    TonePrefix(s, before, after, pos, period, sample, SoundSpan(s))
  }

  /** The bytes of one frame: a sample for every channel. */
  function FrameBytes(s: SoundBuffer): int
  {
    s.channels * s.bytesPerSample
  }

  /** Byte b of channel j of frame i: frame i starts `i` frames in, and channel
      j `j` samples into its frame. */
  function SampleByteIndex(s: SoundBuffer, i: int, j: int, b: int): int
  {
    i * FrameBytes(s) + j * s.bytesPerSample + b
  }

  /** The frame and byte that a sample byte index decodes to; the index is
      also `(i * channels + j) * bytesPerSample + b`. */
  lemma SampleIndexDecodes(s: SoundBuffer, i: int, j: int, b: int)
    requires 0 <= i && 0 <= j < s.channels && 0 <= b < s.bytesPerSample
    ensures SampleByteIndex(s, i, j, b) == (i * s.channels + j) * s.bytesPerSample + b
    ensures 0 <= SampleByteIndex(s, i, j, b) < (i + 1) * FrameBytes(s)
    ensures SampleByteIndex(s, i, j, b) / (s.channels * s.bytesPerSample) == i
    ensures SampleByteIndex(s, i, j, b) % s.bytesPerSample == b
  {
    var f := FrameBytes(s);
    var k := SampleByteIndex(s, i, j, b);
    MulLe(j, s.channels - 1, s.bytesPerSample);
    MulLe(0, j, s.bytesPerSample);
    MulLe(0, i, f);
    DivModUnique(k, f, i, j * s.bytesPerSample + b);
    assert i * f == (i * s.channels) * s.bytesPerSample;
    assert k == (i * s.channels + j) * s.bytesPerSample + b;
    DivModUnique(k, s.bytesPerSample, i * s.channels + j, b);
  }

  /** Where sample j of frame i starts and ends, inside the bytes written. */
  lemma SampleBounds(s: SoundBuffer, i: int, j: int)
    requires 0 <= i < s.samplesRequested && 0 <= j < s.channels && 0 <= s.bytesPerSample
    ensures 0 <= SampleByteIndex(s, i, j, 0)
    ensures SampleByteIndex(s, i, j + 1, 0) == SampleByteIndex(s, i, j, 0) + s.bytesPerSample
    ensures SampleByteIndex(s, i, j + 1, 0) <= SoundSpan(s)
  {
    var f, w := FrameBytes(s), s.bytesPerSample;
    MulLe(0, s.channels, w);
    MulLe(0, i, f);
    MulLe(0, j, w);
    assert (j + 1) * w == j * w + w;
    MulLe(j + 1, s.channels, w);
    assert (i + 1) * f == i * f + f;
    MulLe(i + 1, s.samplesRequested, f);
  }

  /** The end of the last sample of frame i is the start of frame i + 1. */
  lemma FrameEnd(s: SoundBuffer, i: int)
    ensures SampleByteIndex(s, i, s.channels, 0) == SampleByteIndex(s, i + 1, 0, 0)
  {
  }

  /** Copying the low bytes of frame i's sample into channel j extends the
      written prefix over that sample. */
  lemma ToneSampleStep(s: SoundBuffer, before: seq<Byte>, prev: seq<Byte>, after: seq<Byte>,
                       pos: int, period: int, sample: (int, int) -> int, i: int, j: int)
    requires 0 <= i && 0 <= j < s.channels && 0 <= s.bytesPerSample
    requires TonePrefix(s, before, prev, pos, period, sample, SampleByteIndex(s, i, j, 0))
    requires |after| == |prev|
    requires forall k :: 0 <= k < |after| ==>
      after[k] == (if SampleByteIndex(s, i, j, 0) <= k < SampleByteIndex(s, i, j, 0) + s.bytesPerSample
                   then SampleByte(sample(Phase(pos, period, i), period), k - SampleByteIndex(s, i, j, 0))
                   else prev[k])
    ensures TonePrefix(s, before, after, pos, period, sample, SampleByteIndex(s, i, j, 0) + s.bytesPerSample)
  {
    var p := SampleByteIndex(s, i, j, 0);
    forall k | 0 <= k < |after| && 0 < s.bytesPerSample && p <= k < p + s.bytesPerSample
      ensures after[k] == ToneByte(s, pos, period, sample, k)
    {
      var b := k - p;
      SampleIndexDecodes(s, i, j, b);
      assert SampleByteIndex(s, i, j, b) == k;
      assert k / (s.channels * s.bytesPerSample) == i && k % s.bytesPerSample == b;
    }
  }

  /** The layout GameOutputSound promises: samplesRequested frames of
      `channels` samples of `bytesPerSample` bytes, each frame's value the
      sample for the phase counter at that frame, the same value in every
      channel of a frame. */
  lemma ToneLayout(s: SoundBuffer, before: seq<Byte>, after: seq<Byte>,
                   pos: int, period: int, sample: (int, int) -> int, i: int, j: int, b: int)
    requires ToneWritten(s, before, after, pos, period, sample)
    requires SoundSpan(s) <= |after|
    requires 0 <= i < s.samplesRequested && 0 <= j < s.channels && 0 <= b < s.bytesPerSample
    ensures 0 <= SampleByteIndex(s, i, j, b) < SoundSpan(s) && 0 <= SampleByteIndex(s, i, 0, b) < SoundSpan(s)
    ensures after[SampleByteIndex(s, i, j, b)] == SampleByte(sample(Phase(pos, period, i), period), b)
    ensures after[SampleByteIndex(s, i, j, b)] == after[SampleByteIndex(s, i, 0, b)]
  {
    SampleIndexDecodes(s, i, j, b);
    SampleIndexDecodes(s, i, 0, b);
    MulLe(i + 1, s.samplesRequested, s.channels * s.bytesPerSample);
  }

  // ---------------------------------------------------------------------------
  // The game's persistent state and the per-frame update
  // ---------------------------------------------------------------------------

  /** `memcpy(dst + at, &value, n)` for an int64 `value` and n <= 8: the n
      low bytes of value in little-endian order. */
  method CopyLowBytes(dst: array?<Byte>, at: int, value: int, n: int)
    requires 0 <= n <= 8
    requires 0 < n ==> dst != null && 0 <= at && at + n <= dst.Length
    modifies dst
    ensures dst != null ==> forall k :: 0 <= k < dst.Length ==>
      dst[k] == (if at <= k < at + n then SampleByte(value, k - at) else old(dst[k]))
  {
    var b := 0;
    while b < n
      invariant 0 <= b <= n
      invariant dst != null ==> forall k :: 0 <= k < dst.Length ==>
        dst[k] == (if at <= k < at + b then SampleByte(value, k - at) else old(dst[k]))
    {
      dst[at + b] := SampleByte(value, b);
      b := b + 1;
    }
  }

  /** `256 + (buttons[0] ? 200 : 0)`. */
  function WaveHz(keyboard: PlayerController): int
  {
    256 + (if keyboard.buttons[0] then 200 else 0)
  }

  lemma WaveHzChoice(keyboard: PlayerController)
    ensures WaveHz(keyboard) == 456 <==> keyboard.buttons[0]
    ensures WaveHz(keyboard) == 256 <==> !keyboard.buttons[0]
  {
  }

  /** The file-scope statics of `raika.cpp`: the two gradient offsets and the
      phase counter of GameOutputSound. */
  class Game {
    var xoffset: int
    var yoffset: int
    var currentAudioPos: int

    constructor ()
      ensures xoffset == 0 && yoffset == 0 && currentAudioPos == 0
    {
      xoffset, yoffset, currentAudioPos := 0, 0, 0;
    }

    /** `GameOutputSound`: for each requested frame, copy the frame's sample
        into every channel and advance the phase counter. */
    method OutputSound(buffer: SoundBuffer, waveHz: int, sample: (int, int) -> int)
      requires waveHz != 0 && Audible(buffer)
      modifies this`currentAudioPos, buffer.memory
      ensures currentAudioPos
           == Phase(old(currentAudioPos), WavePeriod(buffer.samplesPerSecond, waveHz), buffer.samplesRequested)
      ensures buffer.memory != null ==>
        ToneWritten(buffer, old(buffer.memory[..]), buffer.memory[..], old(currentAudioPos),
                    WavePeriod(buffer.samplesPerSecond, waveHz), sample)
    {
      var wavePeriod := CDiv(buffer.samplesPerSecond, waveHz);
      ghost var pos0 := currentAudioPos;
      ghost var valid := buffer.memory != null;
      ghost var before: seq<Byte> := if valid then buffer.memory[..] else [];
      var p := 0;
      var i := 0;
      while i < buffer.samplesRequested
        invariant 0 <= i && (i == 0 || i <= buffer.samplesRequested)
        invariant p == SampleByteIndex(buffer, i, 0, 0)
        invariant currentAudioPos == Phase(pos0, wavePeriod, i)
        invariant valid ==> TonePrefix(buffer, before, buffer.memory[..], pos0, wavePeriod, sample, p)
      {
        var writeValue := sample(currentAudioPos, wavePeriod);
        var j := 0;
        while j < buffer.channels
          invariant 0 <= j <= buffer.channels
          invariant p == SampleByteIndex(buffer, i, j, 0)
          invariant currentAudioPos == Phase(pos0, wavePeriod, i)
          invariant valid ==> TonePrefix(buffer, before, buffer.memory[..], pos0, wavePeriod, sample, p)
        {
          SampleBounds(buffer, i, j);
          ghost var prev := if valid then buffer.memory[..] else [];
          CopyLowBytes(buffer.memory, p, writeValue, buffer.bytesPerSample);
          if valid {
            ToneSampleStep(buffer, before, prev, buffer.memory[..], pos0, wavePeriod, sample, i, j);
          }
          p := p + buffer.bytesPerSample;
          j := j + 1;
        }
        FrameEnd(buffer, i);
        currentAudioPos := currentAudioPos + 1;
        if currentAudioPos == wavePeriod {
          currentAudioPos := 0;
        }
        i := i + 1;
      }
    }

    /** `GameUpdateAndRender`: read the keyboard controller, choose the tone,
        move the offsets, write the sound, draw the gradient. */
    method UpdateAndRender(graphics: GraphicsBuffer, sound: SoundBuffer, input: GameInput,
                           sample: (int, int) -> int)
      requires Drawable(graphics) && Audible(sound) && sound.memory != graphics.memory
      modifies this, graphics.memory, sound.memory
      ensures xoffset == old(xoffset) + (if input.keyboard.dpad[0] then 10 else 0)
      ensures yoffset == old(yoffset) + (if input.keyboard.dpad[1] then 10 else 0)
      ensures currentAudioPos == Phase(old(currentAudioPos),
        WavePeriod(sound.samplesPerSecond, WaveHz(input.keyboard)), sound.samplesRequested)
      ensures sound.memory != null ==>
        ToneWritten(sound, old(sound.memory[..]), sound.memory[..], old(currentAudioPos),
                    WavePeriod(sound.samplesPerSecond, WaveHz(input.keyboard)), sample)
      ensures IsGradient(graphics, old(graphics.memory[..]), graphics.memory[..], xoffset, yoffset)
    {
      var playerInput := input.keyboard;
      var waveHz := WaveHz(playerInput);
      xoffset := xoffset + (if playerInput.dpad[0] then 10 else 0);
      yoffset := yoffset + (if playerInput.dpad[1] then 10 else 0);
      OutputSound(sound, waveHz, sample);
      RenderGradient(graphics, xoffset, yoffset);
    }
  }
}
