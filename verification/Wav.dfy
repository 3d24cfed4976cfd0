/** RIFF WAVE writing and reading (src/audio-io.h, src/wav.h): little-endian fields, the 44-byte
    header, PCM16, PCM24 and float32 samples, and the reader's chunk walk. */
module Wav {
  import opened Seqs
  import opened Bits
  import opened Multiples

  type Bytes = seq<nat>

  datatype Format = S16 | S24 | F32

  /** A float sample: its 32-bit word, and its value when the word is finite. */
  datatype Sample = Sample(word: nat, value: real)

  function Width(f: Format): (w: nat)
    ensures w == 2 || w == 3 || w == 4
  {
    match f case S16 => 2 case S24 => 3 case F32 => 4
  }

  function Tag(f: Format): nat { if f.F32? then 3 else 1 }

  // ----- samples --------------------------------------------------------------------------

  /** Neither infinite nor not-a-number: the exponent bits are not all ones. */
  predicate IsFinite(s: Sample) { Low(High(s.word, 23), 8) != 255 }

  function Clamp(x: real): (r: real)
    ensures -1.0 <= r <= 1.0
  {
    if x < -1.0 then -1.0 else if x > 1.0 then 1.0 else x
  }

  /** The value the integer formats write. */
  function Clean(s: Sample): (r: real)
    ensures -1.0 <= r <= 1.0
  {
    Clamp(if IsFinite(s) then s.value else 0.0)
  }

  /** The C cast to an integer. */
  function Truncate(x: real): int { if x >= 0.0 then x.Floor else -((-x).Floor) }

  /** Two's complement in n bits. */
  function Unsigned(v: int, n: nat): nat
    requires 0 <= v + Pow2(n) && v < Pow2(n)
  {
    if v < 0 then v + Pow2(n) else v
  }

  function Signed(u: nat, n: nat): int
    requires n >= 1
  {
    if u >= Pow2(n - 1) then u - Pow2(n) else u
  }

  lemma Powers()
    ensures Pow2(15) == 0x8000 && Pow2(16) == 0x1_0000 && Pow2(23) == 0x80_0000 && Pow2(24) == 0x100_0000
    ensures Pow2(31) == 0x8000_0000 && Pow2(32) == 0x1_0000_0000 && Pow2(8) == 0x100
  {
    WordBits();
    assert Pow2(7) == 128 by { assert Pow2(3) == 8 && Pow2(4) == 16; Pow2Add(3, 4); }
    Pow2Add(8, 7);
    Pow2Add(8, 8);
    Pow2Add(8, 15);
    Pow2Add(16, 8);
    Pow2Add(16, 15);
  }

  function Steps(f: Format): int
    requires !f.F32?
  {
    if f.S16? then 32767 else 8388607
  }

  /** The integer a PCM sample is written as. */
  function Level(f: Format, s: Sample): (v: int)
    requires !f.F32?
    ensures -Steps(f) <= v <= Steps(f)
  {
    ScaledFits(Clean(s), Steps(f));
    Scaled(Clean(s), Steps(f))
  }

  /** A value on a scale of n steps. */
  function Scaled(x: real, n: int): int { Truncate(OnScale(x, n as real)) }

  function OnScale(x: real, m: real): real { x * m }

  lemma ScaledFits(x: real, n: int)
    requires -1.0 <= x <= 1.0 && n >= 0
    ensures -n <= Scaled(x, n) <= n
  {
    hide OnScale, Truncate;
    Shrinks(x, n as real);
    TruncateFits(OnScale(x, n as real), n);
  }

  lemma Shrinks(x: real, m: real)
    requires -1.0 <= x <= 1.0 && m >= 0.0
    ensures -m <= OnScale(x, m) <= m
  {
    NonNegative(1.0 - x, m);
    NonNegative(1.0 + x, m);
    assert (1.0 - x) * m == m - x * m && (1.0 + x) * m == m + x * m;
  }

  lemma NonNegative(a: real, b: real)
    requires a >= 0.0 && b >= 0.0
    ensures a * b >= 0.0
  {
  }

  lemma TruncateFits(y: real, n: int)
    requires -(n as real) <= y <= n as real
    ensures -n <= Truncate(y) <= n
  {
  }

  /** The unsigned field a sample is written as. */
  function Field(f: Format, s: Sample): nat {
    Powers();
    if f.F32? then (if IsFinite(s) then s.word else 0) else Unsigned(Level(f, s), 8 * Width(f))
  }

  /** What a reader makes of a field: a level on the full scale, or the word itself. */
  datatype Heard = Value(x: real) | Word(u: nat)

  function Decoded(f: Format, u: nat): Heard {
    match f
    case S16 => Value(Signed(u, 16) as real / 32768.0)
    case S24 => Value(Signed(u, 24) as real / 8388608.0)
    case F32 => Word(u)
  }

  /** Reading a written sample: float words are exact, PCM levels are within two steps of the
      clamped value, and anything not finite becomes silence. */
  lemma SampleRoundTrip(f: Format, s: Sample)
    requires s.word < 0x1_0000_0000
    ensures Field(f, s) < Pow2(8 * Width(f))
    ensures f.F32? ==> Decoded(f, Field(f, s)) == Word(if IsFinite(s) then s.word else 0)
    ensures f.S16? ==> var v := Decoded(f, Field(f, s)).x; -2.0 / 32768.0 < v - Clean(s) < 2.0 / 32768.0
    ensures f.S24? ==> var v := Decoded(f, Field(f, s)).x; -2.0 / 8388608.0 < v - Clean(s) < 2.0 / 8388608.0
  {
    Powers();
    hide Pow2, Clean, IsFinite, Scaled;
    if f.S16? { LevelClose16(Clean(s), Level(f, s)); }
    if f.S24? { LevelClose24(Clean(s), Level(f, s)); }
  }

  /** The level of a PCM sample is its value on the full scale, cut off towards zero; values outside
      [-1, 1] count as the nearer end, and what is not finite as 0. */
  lemma LevelSpelled(f: Format, s: Sample)
    requires !f.F32?
    ensures var v, scale := Level(f, s) as real, if f.S16? then 32767.0 else 8388607.0;
            var x := if !IsFinite(s) then 0.0 else if s.value < -1.0 then -1.0 else if s.value > 1.0 then 1.0 else s.value;
            if x >= 0.0 then v <= x * scale < v + 1.0 else v - 1.0 < x * scale <= v
  {
    hide IsFinite;
    if Clean(s) >= 0.0 { NonNegative(Clean(s), Steps(f) as real); } else { NonNegative(-Clean(s), Steps(f) as real); }
  }

  lemma LevelClose16(x: real, v: int)
    requires -1.0 <= x <= 1.0 && v == Scaled(x, 32767)
    ensures -2.0 / 32768.0 < v as real / 32768.0 - x < 2.0 / 32768.0
  {
    TruncateClose(x * 32767.0);
  }

  lemma LevelClose24(x: real, v: int)
    requires -1.0 <= x <= 1.0 && v == Scaled(x, 8388607)
    ensures -2.0 / 8388608.0 < v as real / 8388608.0 - x < 2.0 / 8388608.0
  {
    TruncateClose(x * 8388607.0);
  }

  lemma TruncateClose(x: real)
    ensures -1.0 < x - Truncate(x) as real < 1.0
  {
  }

  // ----- little-endian fields -------------------------------------------------------------

  function Bytes2(x: nat): (r: Bytes)
    ensures |r| == 2
  {
    Digits(x, 8, 2)
  }

  function Bytes4(x: nat): (r: Bytes)
    ensures |r| == 4
  {
    Digits(x, 8, 4)
  }

  lemma DigitsUnrolled(x: nat)
    ensures Digits(x, 8, 2) == [Low(x, 8), Low(High(x, 8), 8)]
    ensures Digits(x, 8, 3) == [Low(x, 8), Low(High(x, 8), 8), Low(High(x, 16), 8)]
    ensures Digits(x, 8, 4) == [Low(x, 8), Low(High(x, 8), 8), Low(High(x, 16), 8), Low(High(x, 24), 8)]
  {
    hide Low, High;
    NoShift(x);
    assert Digits(x, 8, 1) == [Low(x, 8)] by { assert Digits(x, 8, 0) == []; }
    assert Digits(x, 8, 2) == Digits(x, 8, 1) + [Low(High(x, 8), 8)];
    assert Digits(x, 8, 3) == Digits(x, 8, 2) + [Low(High(x, 16), 8)];
  }

  lemma NoShift(x: nat)
    ensures High(x, 0) == x
  {
  }

  /** wav_write_u16le, wav_write_u24le and wav_write_u32le: k bytes at the write pointer. */
  method WriteLE(out: Bytes, x: nat, k: nat) returns (r: Bytes)
    requires 2 <= k <= 4
    ensures r == out + Digits(x, 8, k)
  {
    hide Low, High, Digits;
    DigitsUnrolled(x);
    r := out + [Low(x, 8)];
    r := r + [Low(High(x, 8), 8)];
    if k >= 3 { r := r + [Low(High(x, 16), 8)]; }
    if k >= 4 { r := r + [Low(High(x, 24), 8)]; }
  }

  /** wav_read_u16le, wav_read_u32le: bytes shifted into place and or-ed. */
  function Read2(d: Bytes, p: nat): nat
    requires p + 2 <= |d|
  {
    Or(d[p], d[p + 1] * Pow2(8))
  }

  function Read3(d: Bytes, p: nat): nat
    requires p + 3 <= |d|
  {
    Or(Read2(d, p), d[p + 2] * Pow2(16))
  }

  function Read4(d: Bytes, p: nat): nat
    requires p + 4 <= |d|
  {
    Or(Read3(d, p), d[p + 3] * Pow2(24))
  }

  /** Written fields read back, from wherever they stand. */
  lemma FieldRead2(d: Bytes, p: nat, x: nat)
    requires p + 2 <= |d| && d[p..p + 2] == Digits(x, 8, 2)
    ensures Read2(d, p) == Low(x, 16)
  {
    hide Pow2, Low, High, Digits, Or;
    DigitsUnrolled(x);
    Peel(x, 8, 8);
    OrDisjoint(Low(x, 8), Low(High(x, 8), 8), 8);
    assert d[p] == d[p..p + 2][0] && d[p + 1] == d[p..p + 2][1];
  }

  lemma FieldRead3(d: Bytes, p: nat, x: nat)
    requires p + 3 <= |d| && d[p..p + 3] == Digits(x, 8, 3)
    ensures Read3(d, p) == Low(x, 24)
  {
    hide Pow2, Low, High, Digits, Or, Read2;
    DigitsUnrolled(x);
    assert d[p..p + 2] == d[p..p + 3][..2];
    FieldRead2(d, p, x);
    Peel(x, 16, 8);
    OrDisjoint(Low(x, 16), Low(High(x, 16), 8), 16);
    assert d[p + 2] == d[p..p + 3][2];
  }

  lemma FieldRead4(d: Bytes, p: nat, x: nat)
    requires p + 4 <= |d| && d[p..p + 4] == Digits(x, 8, 4)
    ensures Read4(d, p) == Low(x, 32)
  {
    hide Pow2, Low, High, Digits, Or, Read2, Read3;
    DigitsUnrolled(x);
    var w := d[p..p + 4];
    assert d[p..p + 3] == w[..3];
    assert w[..3] == Digits(x, 8, 3);
    FieldRead3(d, p, x);
    Peel(x, 24, 8);
    OrDisjoint(Low(x, 24), Low(High(x, 24), 8), 24);
    assert d[p + 3] == w[3];
  }

  // ----- writing --------------------------------------------------------------------------

  const RIFF: Bytes := [0x52, 0x49, 0x46, 0x46]
  const WAVE: Bytes := [0x57, 0x41, 0x56, 0x45]
  const FMT: Bytes := [0x66, 0x6D, 0x74, 0x20]
  const DATA: Bytes := [0x64, 0x61, 0x74, 0x61]

  /** x in k bytes, the least significant first, by quotient and remainder alone. */
  function LE(x: nat, k: nat): (r: Bytes)
    ensures |r| == k
  {
    if k == 0 then [] else [x % 256] + LE(x / 256, k - 1)
  }

  lemma LEUnrolled(x: nat)
    ensures LE(x, 2) == [x % 256, x / 256 % 256]
    ensures LE(x, 3) == [x % 256, x / 256 % 256, x / 0x1_0000 % 256]
    ensures LE(x, 4) == [x % 256, x / 256 % 256, x / 0x1_0000 % 256, x / 0x100_0000 % 256]
  {
    assert x / 256 / 256 == x / 0x1_0000 && x / 0x1_0000 / 256 == x / 0x100_0000;
    assert LE(x / 0x100_0000, 1) == [x / 0x100_0000 % 256];
    assert LE(x / 0x1_0000, 1) == [x / 0x1_0000 % 256];
    assert LE(x / 0x1_0000, 2) == [x / 0x1_0000 % 256] + LE(x / 0x100_0000, 1);
    assert LE(x / 256, 1) == [x / 256 % 256];
    assert LE(x / 256, 2) == [x / 256 % 256] + LE(x / 0x1_0000, 1);
    assert LE(x / 256, 3) == [x / 256 % 256] + LE(x / 0x1_0000, 2);
  }

  /** Fields are little-endian. */
  lemma FieldsAreLE(x: nat)
    ensures Digits(x, 8, 2) == LE(x, 2) && Digits(x, 8, 3) == LE(x, 3) && Digits(x, 8, 4) == LE(x, 4)
  {
    DigitsUnrolled(x);
    LEUnrolled(x);
    LowHighAre(x);
    hide Digits, LE, Low, High;
  }

  lemma LowHighAre(x: nat)
    ensures Low(x, 8) == x % 256 && Low(High(x, 8), 8) == x / 256 % 256
    ensures Low(High(x, 16), 8) == x / 0x1_0000 % 256 && Low(High(x, 24), 8) == x / 0x100_0000 % 256
  {
    Powers();
    hide Pow2;
  }

  /** The fields of the fmt chunk. */
  function FmtBody(f: Format, sr: nat): (r: Bytes)
    ensures |r| == 16
  {
    Bytes2(Tag(f)) + Bytes2(1) + Bytes4(sr) + Bytes4(sr * Width(f)) + Bytes2(Width(f)) + Bytes2(8 * Width(f))
  }

  function Header(f: Format, sr: nat, riffSize: nat, dataSize: nat): (r: Bytes)
    ensures |r| == 44
  {
    RIFF + Bytes4(riffSize) + WAVE + (FMT + Bytes4(16) + FmtBody(f, sr)) + (DATA + Bytes4(dataSize))
  }

  /** The header, field by field: sizes, one channel, rate, bytes per second, bytes per sample and bits,
      with format tag 1 for integers and 3 for floats. */
  lemma HeaderSpelled(f: Format, sr: nat, riffSize: nat, dataSize: nat)
    ensures var w := match f case S16 => 2 case S24 => 3 case F32 => 4;
            Header(f, sr, riffSize, dataSize)
            == [0x52, 0x49, 0x46, 0x46] + LE(riffSize, 4) + [0x57, 0x41, 0x56, 0x45]
               + ([0x66, 0x6D, 0x74, 0x20] + LE(16, 4)
                  + (LE(if f.F32? then 3 else 1, 2) + LE(1, 2) + LE(sr, 4) + LE(sr * w, 4) + LE(w, 2) + LE(8 * w, 2)))
               + ([0x64, 0x61, 0x74, 0x61] + LE(dataSize, 4))
  {
    hide Digits, LE;
    FieldsAreLE(riffSize);
    FieldsAreLE(16);
    FieldsAreLE(Tag(f));
    FieldsAreLE(1);
    FieldsAreLE(sr);
    FieldsAreLE(sr * Width(f));
    FieldsAreLE(Width(f));
    FieldsAreLE(8 * Width(f));
    FieldsAreLE(dataSize);
  }

  function Body(f: Format, samples: seq<Sample>): Bytes {
    if samples == [] then []
    else Body(f, samples[..|samples| - 1]) + Digits(Field(f, samples[|samples| - 1]), 8, Width(f))
  }

  function DataSize(f: Format, n: nat): nat { n * Width(f) }

  /** audio_encode_wav. The 32-bit size fields keep the low bits of what they are given. */
  method Encode(f: Format, samples: seq<Sample>, sr: nat) returns (out: Bytes)
    ensures out == Header(f, sr, 36 + DataSize(f, |samples|), DataSize(f, |samples|)) + Body(f, samples)
  {
    hide Digits, Field;
    out := WriteHeader(f, sr, 36 + DataSize(f, |samples|), DataSize(f, |samples|));
    var body := WriteSamples(f, samples);
    out := out + body;
  }

  /** wav_write_header_basic and wav_stream_write_header differ in the two sizes alone. */
  method WriteHeader(f: Format, sr: nat, riffSize: nat, dataSize: nat) returns (out: Bytes)
    ensures out == Header(f, sr, riffSize, dataSize)
  {
    hide Digits;
    var bytesPerSample := 8 * Width(f) / 8;
    out := RIFF;
    out := WriteLE(out, riffSize, 4);
    out := out + WAVE;
    out := out + FMT;
    out := WriteLE(out, 16, 4);
    out := WriteLE(out, Tag(f), 2);
    out := WriteLE(out, 1, 2);
    out := WriteLE(out, sr, 4);
    out := WriteLE(out, sr * bytesPerSample, 4);
    out := WriteLE(out, bytesPerSample, 2);
    out := WriteLE(out, 8 * Width(f), 2);
    out := out + DATA;
    out := WriteLE(out, dataSize, 4);
    Flatten(f, sr, riffSize, dataSize, out);
  }

  lemma Flatten(f: Format, sr: nat, riffSize: nat, dataSize: nat, out: Bytes)
    requires out == RIFF + Bytes4(riffSize) + WAVE + FMT + Bytes4(16) + Bytes2(Tag(f)) + Bytes2(1) + Bytes4(sr)
                    + Bytes4(sr * Width(f)) + Bytes2(Width(f)) + Bytes2(8 * Width(f)) + DATA + Bytes4(dataSize)
    ensures out == Header(f, sr, riffSize, dataSize)
  {
    hide Digits;
  }

  method WriteSamples(f: Format, samples: seq<Sample>) returns (out: Bytes)
    ensures out == Body(f, samples)
  {
    hide Digits, Field;
    out := [];
    for t := 0 to |samples|
      invariant out == Body(f, samples[..t])
    {
      assert samples[..t + 1][..t] == samples[..t];
      out := WriteLE(out, Field(f, samples[t]), Width(f));
    }
    assert samples[..|samples|] == samples;
  }

  // ----- reading --------------------------------------------------------------------------

  /** What the reader knows from the last fmt chunk. */
  datatype Fmt = Fmt(channels: nat, rate: int, bits: nat, format: nat)

  type Frame = (Heard, Heard)

  /** The sample formats the reader accepts. */
  function FormatOf(f: Fmt): Option<Format> {
    if f.format == 1 && f.bits == 16 then Some(S16)
    else if f.format == 1 && f.bits == 24 then Some(S24)
    else if f.format == 3 && f.bits == 32 then Some(F32)
    else None
  }

  function ReadField(f: Format, d: Bytes, p: nat): nat
    requires p + Width(f) <= |d|
  {
    match f case S16 => Read2(d, p) case S24 => Read3(d, p) case F32 => Read4(d, p)
  }

  function Stride(f: Format, channels: nat): nat { channels * Width(f) }

  /** One frame: a mono sample twice, or the first two channels. */
  function FrameAt(f: Format, channels: nat, d: Bytes, p: nat): Frame
    requires channels >= 1 && p + Stride(f, channels) <= |d|
  {
    Monotone(if channels == 1 then 1 else 2, channels, Width(f));
    if channels == 1 then (Decoded(f, ReadField(f, d, p)), Decoded(f, ReadField(f, d, p)))
    else (Decoded(f, ReadField(f, d, p)), Decoded(f, ReadField(f, d, p + Width(f))))
  }

  function FramesAt(f: Format, channels: nat, d: Bytes, p: nat, n: nat): (r: seq<Frame>)
    requires channels >= 1 && p + Scale(n, Stride(f, channels)) <= |d|
    ensures |r| == n
  {
    if n == 0 then []
    else
      OneMore(n - 1, Stride(f, channels));
      FramesAt(f, channels, d, p, n - 1) + [FrameAt(f, channels, d, p + Scale(n - 1, Stride(f, channels)))]
  }

  /** The fields of a fmt chunk of the given size at p; the extensible tag is collapsed to the sample
      format it carries. */
  function ParseFmt(d: Bytes, p: nat, size: nat): Fmt
    requires size >= 16 && p + size <= |d|
  {
    var tag := Read2(d, p);
    var sub := if tag == 0xFFFE && size >= 40 then Read2(d, p + 24) else 0;
    Fmt(Read2(d, p + 2), Signed(Read4(d, p + 4), 32), Read2(d, p + 14), if sub == 1 || sub == 3 then sub else tag)
  }

  /** Whole frames that fit into a data chunk. */
  function FrameCount(f: Format, channels: nat, size: nat): (n: nat)
    requires channels >= 1
    ensures Scale(n, Stride(f, channels)) <= size
  {
    Monotone(1, channels, Width(f));
    Quotient(size, Stride(f, channels));
    size / Stride(f, channels)
  }

  predicate AreBytes(d: Bytes) { forall i | 0 <= i < |d| :: d[i] < 256 }

  /** The number k bytes spell, the least significant first. */
  function Spelt(d: Bytes, p: nat, k: nat): nat
    requires p + k <= |d|
    decreases k
  {
    if k == 0 then 0 else d[p] + 0x100 * Spelt(d, p + 1, k - 1)
  }

  /** Fields are read least significant byte first. */
  lemma ReadSpelled(d: Bytes, p: nat)
    requires AreBytes(d) && p + 2 <= |d|
    ensures Read2(d, p) == Spelt(d, p, 2)
    ensures p + 3 <= |d| ==> Read3(d, p) == Spelt(d, p, 3)
    ensures p + 4 <= |d| ==> Read4(d, p) == Spelt(d, p, 4)
  {
    SpeltUnrolled(d, p);
    hide *;
    Read2Is(d, p);
    if p + 3 <= |d| { Read3Is(d, p); }
    if p + 4 <= |d| { Read4Is(d, p); }
  }

  lemma Read2Is(d: Bytes, p: nat)
    requires AreBytes(d) && p + 2 <= |d|
    ensures Read2(d, p) == d[p] + 0x100 * d[p + 1]
  {
    Powers();
    hide Or, Pow2;
    OrDisjoint(d[p], d[p + 1], 8);
  }

  lemma Read3Is(d: Bytes, p: nat)
    requires AreBytes(d) && p + 3 <= |d|
    ensures Read3(d, p) == d[p] + 0x100 * d[p + 1] + 0x1_0000 * d[p + 2]
  {
    Powers();
    Read2Is(d, p);
    hide Or, Pow2, Read2;
    OrDisjoint(d[p] + 0x100 * d[p + 1], d[p + 2], 16);
  }

  lemma Read4Is(d: Bytes, p: nat)
    requires AreBytes(d) && p + 4 <= |d|
    ensures Read4(d, p) == d[p] + 0x100 * d[p + 1] + 0x1_0000 * d[p + 2] + 0x100_0000 * d[p + 3]
  {
    Powers();
    Read3Is(d, p);
    hide Or, Pow2, Read3;
    OrDisjoint(d[p] + 0x100 * d[p + 1] + 0x1_0000 * d[p + 2], d[p + 3], 24);
  }

  lemma SpeltUnrolled(d: Bytes, p: nat)
    requires p + 2 <= |d|
    ensures Spelt(d, p, 2) == d[p] + 0x100 * d[p + 1]
    ensures p + 3 <= |d| ==> Spelt(d, p, 3) == d[p] + 0x100 * d[p + 1] + 0x1_0000 * d[p + 2]
    ensures p + 4 <= |d| ==> Spelt(d, p, 4) == d[p] + 0x100 * d[p + 1] + 0x1_0000 * d[p + 2] + 0x100_0000 * d[p + 3]
  {
    assert Spelt(d, p + 1, 1) == d[p + 1];
    if p + 3 <= |d| { assert Spelt(d, p + 2, 1) == d[p + 2]; }
    if p + 4 <= |d| { assert Spelt(d, p + 3, 1) == d[p + 3]; }
  }

  /** Integers are heard on the full scale of their width, floats as they are. */
  lemma DecodedSpelled(u: nat)
    ensures u < 0x1_0000 ==>
              Decoded(S16, u).Value? && Decoded(S16, u).x * 32768.0 == (if u < 0x8000 then u else u - 0x1_0000) as real
    ensures u < 0x100_0000 ==>
              Decoded(S24, u).Value? && Decoded(S24, u).x * 8388608.0 == (if u < 0x80_0000 then u else u - 0x100_0000) as real
    ensures Decoded(F32, u) == Word(u)
  {
    Powers();
    hide Pow2;
  }

  /** A frame is its first two samples, a mono one its only sample twice. */
  lemma FrameSpelled(f: Format, channels: nat, d: Bytes, p: nat)
    requires channels >= 1 && p + Stride(f, channels) <= |d| && p + Width(f) <= |d|
    requires channels >= 2 ==> p + 2 * Width(f) <= |d|
    ensures FrameAt(f, channels, d, p).0 == Decoded(f, ReadField(f, d, p))
    ensures FrameAt(f, channels, d, p).1 == Decoded(f, ReadField(f, d, if channels == 1 then p else p + Width(f)))
  {
    hide Decoded, ReadField, Stride, Width;
  }

  /** Samples stand side by side, two, three or four bytes each. */
  lemma WidthSpelled(f: Format)
    ensures Width(f) == match f case S16 => 2 case S24 => 3 case F32 => 4
  {
  }

  lemma StrideFits(f: Format, channels: nat)
    requires channels >= 1
    ensures Stride(f, channels) == channels * Width(f) >= Width(f)
    ensures channels >= 2 ==> Stride(f, channels) >= 2 * Width(f)
  {
    if channels >= 2 { Monotone(2, channels, Width(f)); } else { Monotone(1, channels, Width(f)); }
  }

  /** Frame t of a data chunk stands t strides behind its start. */
  lemma {:induction false} FramesSpelled(f: Format, channels: nat, d: Bytes, p: nat, n: nat, t: nat)
    requires channels >= 1 && p + Scale(n, Stride(f, channels)) <= |d| && t < n
    ensures p + Scale(t, Stride(f, channels)) + Stride(f, channels) <= |d|
    ensures FramesAt(f, channels, d, p, n)[t] == FrameAt(f, channels, d, p + Scale(t, Stride(f, channels)))
    decreases n
  {
    hide FrameAt, Stride;
    OneMore(n - 1, Stride(f, channels));
    OneMore(t, Stride(f, channels));
    Monotone(t + 1, n, Stride(f, channels));
    if t < n - 1 { FramesSpelled(f, channels, d, p, n - 1, t); }
  }

  /** The fmt chunk: tag, channels, rate and bits at their places; an extensible chunk of at least 40
      bytes counts as the integer or float format its sub-format names. */
  lemma FmtSpelled(d: Bytes, p: nat, size: nat)
    requires AreBytes(d) && size >= 16 && p + size <= |d|
    ensures var fmt, tag, rate := ParseFmt(d, p, size), Spelt(d, p, 2), Spelt(d, p + 4, 4);
            var sub := if size >= 40 then Spelt(d, p + 24, 2) else 0;
            && fmt.channels == Spelt(d, p + 2, 2) && fmt.bits == Spelt(d, p + 14, 2)
            && fmt.rate == (rate as int) - (if rate < 0x8000_0000 then 0 else 0x1_0000_0000)
            && fmt.format == if tag == 0xFFFE && (sub == 1 || sub == 3) then sub else tag
  {
    ReadSpelled(d, p);
    ReadSpelled(d, p + 2);
    ReadSpelled(d, p + 4);
    ReadSpelled(d, p + 14);
    if size >= 40 { ReadSpelled(d, p + 24); }
    Signed32(Spelt(d, p + 4, 4));
    hide Read2, Read4, Spelt, Signed, AreBytes;
  }

  lemma Signed32(u: nat)
    ensures Signed(u, 32) == (u as int) - (if u < 0x8000_0000 then 0 else 0x1_0000_0000)
  {
    Powers();
    hide Pow2;
  }

  /** A chunk's size, cut off at the end of the buffer. */
  function ChunkSize(d: Bytes, pos: nat): (size: nat)
    requires pos + 8 <= |d|
    ensures pos + 8 + size <= |d|
  {
    var size := Read4(d, pos + 4);
    if pos + 8 + size > |d| then |d| - (pos + 8) else size
  }

  /** The size field is the four bytes behind the chunk's name; a chunk never reaches past the buffer. */
  lemma ChunkSizeSpelled(d: Bytes, pos: nat)
    requires AreBytes(d) && pos + 8 <= |d|
    ensures var size, room := Spelt(d, pos + 4, 4), |d| - (pos + 8);
            ChunkSize(d, pos) == if size > room then room else size
  {
    ReadSpelled(d, pos + 4);
    hide Spelt, Read4;
  }

  predicate IsFmt(d: Bytes, pos: nat)
    requires pos + 8 <= |d|
  {
    d[pos..pos + 4] == FMT && ChunkSize(d, pos) >= 16
  }

  /** The chunks from pos on: fmt chunks set the format, the first data chunk behind one ends the
      walk, everything else is skipped; odd chunks are followed by a pad byte. */
  function Walk(d: Bytes, pos: nat, st: Fmt): Option<(seq<Frame>, int)>
    decreases |d| - pos
  {
    if pos + 8 > |d| then None
    else
      var size, p := ChunkSize(d, pos), pos + 8;
      if !IsFmt(d, pos) && d[pos..pos + 4] == DATA && st.channels > 0 then
        var f := FormatOf(st);
        if f.None? then None
        else Some((FramesAt(f.value, st.channels, d, p, FrameCount(f.value, st.channels, size)), st.rate))
      else
        Walk(d, p + size + size % 2, if IsFmt(d, pos) then ParseFmt(d, p, size) else st)
  }

  function Parsed(d: Bytes): Option<(seq<Frame>, int)> {
    if |d| < 12 || d[..4] != RIFF || d[8..12] != WAVE then None else Walk(d, 12, Fmt(0, 0, 0, 0))
  }

  /** read_wav_buf: for every byte string it ends, stays in bounds, and finds what the walk finds. */
  method ReadWav(d: Bytes) returns (r: Option<(seq<Frame>, int)>)
    ensures r == Parsed(d)
  {
    hide FramesAt, Signed, Read2, Read3, Read4, Walk, FrameCount, Or;
    if |d| < 12 || d[0..4] != RIFF || d[8..12] != WAVE { return None; }
    var st := Fmt(0, 0, 0, 0);
    var pos := 12;
    while pos + 8 <= |d|
      invariant pos >= 0 && Walk(d, pos, st) == Parsed(d)
      decreases |d| - pos
    {
      var id := d[pos..pos + 4];
      var size := Read4(d, pos + 4);
      WalkStep(d, pos, st);
      pos := pos + 8;
      if pos + size > |d| { size := |d| - pos; }
      if id == FMT && size >= 16 {
        var format := Read2(d, pos);
        if format == 0xFFFE && size >= 40 {
          var sub := Read2(d, pos + 24);
          if sub == 1 || sub == 3 { format := sub; }
        }
        st := Fmt(Read2(d, pos + 2), Signed(Read4(d, pos + 4), 32), Read2(d, pos + 14), format);
        pos := pos + size;
      } else if id == DATA && st.channels > 0 {
        var f := FormatOf(st);
        if f.None? { return None; }
        var frames := ReadFrames(f.value, st.channels, d, pos, size);
        return Some((frames, st.rate));
      } else {
        pos := pos + size;
      }
      if size % 2 == 1 { pos := pos + 1; }
    }
    WalkEnds(d, pos, st);
    return None;
  }

  /** One chunk of the walk: a data chunk behind a format ends it, with no result when the format is none
      of the three; any other chunk is skipped with its pad byte, if its size is odd. */
  lemma WalkStep(d: Bytes, pos: nat, st: Fmt)
    requires pos + 8 <= |d|
    ensures var size, p := ChunkSize(d, pos), pos + 8;
            Walk(d, pos, st)
            == if !IsFmt(d, pos) && d[pos..pos + 4] == DATA && st.channels > 0 then
                 var f := FormatOf(st);
                 if f.None? then None
                 else Some((FramesAt(f.value, st.channels, d, p, FrameCount(f.value, st.channels, size)), st.rate))
               else Walk(d, p + size + size % 2, if IsFmt(d, pos) then ParseFmt(d, p, size) else st)
  {
    hide FramesAt, FrameCount, ChunkSize, ParseFmt, FormatOf, IsFmt;
  }

  lemma WalkEnds(d: Bytes, pos: nat, st: Fmt)
    requires pos + 8 > |d|
    ensures Walk(d, pos, st) == None
  {
  }

  method ReadFrames(f: Format, channels: nat, d: Bytes, p: nat, size: nat) returns (frames: seq<Frame>)
    requires channels >= 1 && p + size <= |d|
    ensures frames == FramesAt(f, channels, d, p, FrameCount(f, channels, size))
  {
    hide FrameAt, Stride;
    var n := FrameCount(f, channels, size);
    frames := [];
    for t := 0 to n
      invariant Scale(t, Stride(f, channels)) <= Scale(n, Stride(f, channels))
      invariant frames == FramesAt(f, channels, d, p, t)
    {
      FrameFits(t, n, Stride(f, channels));
      frames := frames + [FrameAt(f, channels, d, p + Scale(t, Stride(f, channels)))];
    }
  }

  lemma FrameFits(t: nat, n: nat, stride: nat)
    requires t < n
    ensures Scale(t, stride) + stride == Scale(t + 1, stride) <= Scale(n, stride)
  {
    OneMore(t, stride);
    Monotone(t + 1, n, stride);
  }

  // ----- round trip -----------------------------------------------------------------------

  /** What reading back the written samples yields: each one on both channels. */
  function HeardAll(f: Format, samples: seq<Sample>): (r: seq<Frame>)
    ensures |r| == |samples|
  {
    seq(|samples|, t requires 0 <= t < |samples| => (Decoded(f, Field(f, samples[t])), Decoded(f, Field(f, samples[t]))))
  }

  predicate Words(samples: seq<Sample>) { forall t | 0 <= t < |samples| :: samples[t].word < 0x1_0000_0000 }

  lemma {:induction false} BodyLength(f: Format, samples: seq<Sample>)
    ensures |Body(f, samples)| == Scale(|samples|, Width(f))
  {
    if samples != [] {
      BodyLength(f, samples[..|samples| - 1]);
      OneMore(|samples| - 1, Width(f));
    }
  }

  lemma {:induction false} BodyAt(f: Format, samples: seq<Sample>, t: nat)
    requires t < |samples|
    ensures Scale(t, Width(f)) + Width(f) <= |Body(f, samples)|
    ensures Body(f, samples)[Scale(t, Width(f))..Scale(t, Width(f)) + Width(f)] == Digits(Field(f, samples[t]), 8, Width(f))
  {
    hide Digits, Field, Scale;
    var n := |samples| - 1;
    BodyLength(f, samples);
    BodyLength(f, samples[..n]);
    FrameFits(t, |samples|, Width(f));
    if t < n {
      BodyAt(f, samples[..n], t);
      BodyKeeps(Body(f, samples[..n]), Digits(Field(f, samples[n]), 8, Width(f)), Scale(t, Width(f)), Width(f));
    } else {
      BodyEnds(Body(f, samples[..n]), Digits(Field(f, samples[n]), 8, Width(f)));
    }
  }

  lemma BodyEnds(a: Bytes, b: Bytes)
    ensures (a + b)[|a|..|a| + |b|] == b
  {
  }

  lemma BodyKeeps(a: Bytes, b: Bytes, i: nat, w: nat)
    requires i + w <= |a|
    ensures (a + b)[i..i + w] == a[i..i + w]
  {
  }

  /** The header's fields stand where the reader looks for them. */
  lemma HeaderFields(f: Format, sr: nat, riffSize: nat, dataSize: nat, body: Bytes)
    ensures var d := Header(f, sr, riffSize, dataSize) + body;
            && |d| == 44 + |body| && d[..4] == RIFF && d[8..12] == WAVE
            && d[12..16] == FMT && d[16..20] == Bytes4(16)
            && d[20..22] == Bytes2(Tag(f)) && d[22..24] == Bytes2(1) && d[24..28] == Bytes4(sr)
            && d[34..36] == Bytes2(8 * Width(f)) && d[36..40] == DATA && d[40..44] == Bytes4(dataSize)
            && d[44..] == body
  {
    hide Bytes2, Bytes4, FmtBody;
    var fmt := FmtBody(f, sr);
    var d := Header(f, sr, riffSize, dataSize) + body;
    Layout(RIFF, Bytes4(riffSize), WAVE, FMT, Bytes4(16), fmt, DATA, Bytes4(dataSize), body);
    FmtFields(f, sr);
    SliceOfSlice(d, 20, 36, 0, 2);
    SliceOfSlice(d, 20, 36, 2, 4);
    SliceOfSlice(d, 20, 36, 4, 8);
    SliceOfSlice(d, 20, 36, 14, 16);
  }

  lemma Layout(riff: Bytes, riffSize: Bytes, wave: Bytes, fmtId: Bytes, fmtSize: Bytes, fmt: Bytes, dataId: Bytes,
               dataSize: Bytes, body: Bytes)
    requires |riff| == |riffSize| == |wave| == |fmtId| == |fmtSize| == |dataId| == |dataSize| == 4 && |fmt| == 16
    ensures var d := riff + riffSize + wave + (fmtId + fmtSize + fmt) + (dataId + dataSize) + body;
            && |d| == 44 + |body| && d[..4] == riff && d[8..12] == wave && d[12..16] == fmtId && d[16..20] == fmtSize
            && d[20..36] == fmt && d[36..40] == dataId && d[40..44] == dataSize && d[44..] == body
  {
    var head, chunk, data := riff + riffSize + wave, fmtId + fmtSize + fmt, dataId + dataSize;
    var d := head + chunk + data + body;
    FourParts(head, chunk, data, body);
    FourParts(riff, riffSize, wave, []);
    FourParts(fmtId, fmtSize, fmt, []);
    assert head + [] == head && chunk + [] == chunk;
    SliceOfSlice(d, 0, 12, 0, 4);
    SliceOfSlice(d, 0, 12, 8, 12);
    SliceOfSlice(d, 12, 36, 0, 4);
    SliceOfSlice(d, 12, 36, 4, 8);
    SliceOfSlice(d, 12, 36, 8, 24);
    SliceOfSlice(d, 36, 44, 0, 4);
    SliceOfSlice(d, 36, 44, 4, 8);
  }

  lemma FourParts<T>(a: seq<T>, b: seq<T>, c: seq<T>, e: seq<T>)
    ensures var d, i, j, k := a + b + c + e, |a|, |a| + |b|, |a| + |b| + |c|;
            d[0..i] == a && d[i..j] == b && d[j..k] == c && d[k..] == e
  {
    var d, i, j := a + b + c + e, |a|, |a| + |b|;
    assert forall x | 0 <= x < |b| :: d[i..j][x] == b[x];
    assert forall x | 0 <= x < |c| :: d[j..j + |c|][x] == c[x];
  }

  lemma FmtFields(f: Format, sr: nat)
    ensures var b := FmtBody(f, sr);
            b[..2] == Bytes2(Tag(f)) && b[2..4] == Bytes2(1) && b[4..8] == Bytes4(sr) && b[14..16] == Bytes2(8 * Width(f))
  {
    hide Digits;
  }

  lemma LowSmall(x: nat, n: nat)
    requires x < Pow2(n)
    ensures Low(x, n) == x
  {
    hide Low, High, Pow2;
    Split(x, 0, n);
  }

  /** The header parses to the format that was written. */
  lemma HeaderParsed(f: Format, sr: nat, riffSize: nat, dataSize: nat, body: Bytes)
    requires sr < 0x8000_0000
    ensures var d := Header(f, sr, riffSize, dataSize) + body;
            && |d| == 44 + |body| && ChunkSize(d, 12) == 16 && IsFmt(d, 12)
            && ParseFmt(d, 20, 16) == Fmt(1, sr, 8 * Width(f), Tag(f))
            && d[36..40] == DATA && Read4(d, 40) == Low(dataSize, 32) && Parsed(d) == Walk(d, 36, ParseFmt(d, 20, 16))
  {
    hide Low, High, Or, Digits, Read2, Read3, Read4, Header;
    Powers();
    var d := Header(f, sr, riffSize, dataSize) + body;
    HeaderFields(f, sr, riffSize, dataSize, body);
    FieldRead4(d, 16, 16);
    LowSmall(16, 32);
    FieldRead2(d, 20, Tag(f));
    LowSmall(Tag(f), 16);
    FieldRead2(d, 22, 1);
    LowSmall(1, 16);
    FieldRead4(d, 24, sr);
    LowSmall(sr, 32);
    FieldRead2(d, 34, 8 * Width(f));
    LowSmall(8 * Width(f), 16);
    FieldRead4(d, 40, dataSize);
  }

  lemma {:induction false} FramesRead(f: Format, samples: seq<Sample>, d: Bytes, n: nat)
    requires Words(samples) && |d| >= 44 && d[44..] == Body(f, samples) && n <= |samples|
    ensures 44 + Scale(n, Stride(f, 1)) <= |d|
    ensures FramesAt(f, 1, d, 44, n) == HeardAll(f, samples)[..n]
  {
    hide *;
    MonoStride(f);
    BodyLength(f, samples);
    OffsetLe(n, |samples|, Width(f));
    if n > 0 {
      FramesRead(f, samples, d, n - 1);
      var p := Scale(n - 1, Width(f));
      BodyAt(f, samples, n - 1);
      SliceBehind(d, 44, p, Width(f));
      OneSample(samples, n - 1);
      SampleRead(f, d, 44 + p, samples[n - 1]);
      OneWider(n - 1, Width(f));
      FramesStep(f, d, n, p);
      HeardStep(f, samples, n);
    } else {
      FramesNone(f, d);
      assert HeardAll(f, samples)[..0] == [];
    }
  }

  lemma MonoStride(f: Format)
    ensures Stride(f, 1) == Width(f)
  {
  }

  lemma OneSample(samples: seq<Sample>, t: nat)
    requires Words(samples) && t < |samples|
    ensures samples[t].word < 0x1_0000_0000
  {
  }

  lemma HeardStep(f: Format, samples: seq<Sample>, n: nat)
    requires 0 < n <= |samples|
    ensures var v := Decoded(f, Field(f, samples[n - 1]));
            HeardAll(f, samples)[..n] == HeardAll(f, samples)[..n - 1] + [(v, v)]
  {
    hide Decoded, Field;
  }

  lemma SliceBehind(d: Bytes, k: nat, p: nat, w: nat)
    requires k + p + w <= |d|
    ensures d[k + p..k + p + w] == d[k..][p..p + w]
  {
  }

  lemma FramesNone(f: Format, d: Bytes)
    requires |d| >= 44
    ensures Scale(0, Stride(f, 1)) == 0 && FramesAt(f, 1, d, 44, 0) == []
  {
  }

  lemma OneWider(n: nat, w: nat)
    ensures Scale(n + 1, w) == Scale(n, w) + w
  {
    OneMore(n, w);
  }

  lemma OffsetLe(m: nat, n: nat, w: nat)
    requires m <= n
    ensures Scale(m, w) <= Scale(n, w)
  {
    Monotone(m, n, w);
  }

  lemma FramesStep(f: Format, d: Bytes, n: nat, p: nat)
    requires n > 0 && 44 + Scale(n, Stride(f, 1)) <= |d| && 44 + Scale(n - 1, Stride(f, 1)) <= |d|
    requires p == Scale(n - 1, Stride(f, 1)) && 44 + p + Width(f) == 44 + Scale(n, Stride(f, 1))
    ensures var v := Decoded(f, ReadField(f, d, 44 + p));
            FramesAt(f, 1, d, 44, n) == FramesAt(f, 1, d, 44, n - 1) + [(v, v)]
  {
    hide ReadField, Decoded, Scale;
  }

  lemma SampleRead(f: Format, d: Bytes, p: nat, s: Sample)
    requires s.word < 0x1_0000_0000 && p + Width(f) <= |d| && d[p..p + Width(f)] == Digits(Field(f, s), 8, Width(f))
    ensures ReadField(f, d, p) == Field(f, s)
  {
    hide Digits, Field, Low, High, Or, Pow2;
    SampleRoundTrip(f, s);
    LowSmall(Field(f, s), 8 * Width(f));
    match f
    case S16 => FieldRead2(d, p, Field(f, s));
    case S24 => FieldRead3(d, p, Field(f, s));
    case F32 => FieldRead4(d, p, Field(f, s));
  }

  /** Reading what was written gives the rate and every sample back, whatever the header's size
      fields say as long as the data size covers the samples. */
  lemma WriteRead(f: Format, samples: seq<Sample>, sr: nat, riffSize: nat, dataSize: nat)
    requires sr < 0x8000_0000 && Words(samples) && DataSize(f, |samples|) <= Low(dataSize, 32)
    ensures Parsed(Header(f, sr, riffSize, dataSize) + Body(f, samples)) == Some((HeardAll(f, samples), sr))
  {
    hide Low, Body, HeardAll, Header, Read4, Read2, Digits, ParseFmt, FramesAt, IsFmt;
    var body := Body(f, samples);
    var d := Header(f, sr, riffSize, dataSize) + body;
    HeaderParsed(f, sr, riffSize, dataSize, body);
    BodyLength(f, samples);
    assert d[44..] == body;
    FramesRead(f, samples, d, |samples|);
    CountFrames(f, |samples|, |body|);
    assert !IsFmt(d, 36) by { DataIsNotFmt(d); }
    assert HeardAll(f, samples)[..|samples|] == HeardAll(f, samples);
    assert FormatOf(Fmt(1, sr, 8 * Width(f), Tag(f))) == Some(f);
    assert ChunkSize(d, 36) == |body|;
  }

  lemma DataIsNotFmt(d: Bytes)
    requires |d| >= 44 && d[36..40] == DATA
    ensures !IsFmt(d, 36)
  {
    assert DATA[0] != FMT[0];
  }

  lemma CountFrames(f: Format, n: nat, size: nat)
    requires size == Scale(n, Width(f))
    ensures FrameCount(f, 1, size) == n
  {
    var w := Stride(f, 1);
    Quotient(size, w);
    SameQuotient(0, n, size % w, size / w, w);
  }

  /** Both writers meet the condition: a file of less than 2^31 data bytes, and a live stream, whose
      header announces 0x7FFFFFFF bytes, of at most that many. */
  lemma FilesAndStreamsRead(f: Format, samples: seq<Sample>, sr: nat)
    requires sr < 0x8000_0000 && Words(samples)
    ensures var n := DataSize(f, |samples|);
            && (n < 0x8000_0000 ==>
                  Parsed(Header(f, sr, 36 + n, n) + Body(f, samples)) == Some((HeardAll(f, samples), sr)))
            && (n <= 0x7FFF_FFFF ==>
                  Parsed(Header(f, sr, 0x7FFF_FFFF, 0x7FFF_FFFF) + Body(f, samples)) == Some((HeardAll(f, samples), sr)))
  {
    hide Low, Parsed, Header, Body, HeardAll, Pow2;
    Powers();
    var n := DataSize(f, |samples|);
    if n < 0x8000_0000 {
      LowSmall(n, 32);
      WriteRead(f, samples, sr, 36 + n, n);
    }
    if n <= 0x7FFF_FFFF {
      LowSmall(0x7FFF_FFFF, 32);
      WriteRead(f, samples, sr, 0x7FFF_FFFF, 0x7FFF_FFFF);
    }
  }

  /** Consecutive stream writes are one body. */
  lemma {:induction false} BodyJoins(f: Format, a: seq<Sample>, b: seq<Sample>)
    ensures Body(f, a + b) == Body(f, a) + Body(f, b)
  {
    hide Digits, Field;
    if b == [] {
      assert a + b == a;
    } else {
      var n := |b| - 1;
      assert (a + b)[..|a + b| - 1] == a + b[..n];
      BodyJoins(f, a, b[..n]);
    }
  }
}
