/** Packed code files (src/rvq-file.h): a flat code stream, b bits per code, least significant bit
    first, no header. A byte string is read as the number its bytes spell in base 256, and a code
    list as the number its codes spell in base 2^b: packing keeps the number. */
module RvqFile {
  import opened Seqs
  import opened Bits

  /** The cast to uint32_t, then the b-bit mask. */
  function Masked(code: int, b: nat): (r: nat)
    requires -0x8000_0000 <= code < 0x8000_0000
    ensures r < Pow2(b)
  {
    Low(if code < 0 then code + 0x1_0000_0000 else code, b)
  }

  predicate Int32s(codes: seq<int>) {
    forall i | 0 <= i < |codes| :: -0x8000_0000 <= codes[i] < 0x8000_0000
  }

  function MaskedAll(codes: seq<int>, b: nat): (r: seq<nat>)
    requires Int32s(codes)
    ensures |r| == |codes| && AreDigits(r, b)
  {
    seq(|codes|, i requires 0 <= i < |codes| => Masked(codes[i], b))
  }

  function PackedSize(n: nat, b: nat): nat { (n * b + 7) / 8 }

  /** The file of a code list: exactly as many bytes as its bits need, spelling the same number. */
  ghost predicate Packed(codes: seq<int>, b: nat, bytes: seq<nat>)
    requires Int32s(codes)
  {
    && |bytes| == PackedSize(|codes|, b) && AreDigits(bytes, 8)
    && FromDigits(bytes, 8) == FromDigits(MaskedAll(codes, b), b)
  }

  /** Bytes written so far and the accumulator together spell the codes taken so far. */
  ghost predicate Packing(done: seq<nat>, acc: nat, bits: nat, ds: seq<nat>, b: nat) {
    && AreDigits(done, 8) && acc < Pow2(bits) && 8 * |done| + bits == b * |ds|
    && FromDigits(done, 8) + acc * Pow2(8 * |done|) == FromDigits(ds, b)
  }

  lemma PackTakes(done: seq<nat>, acc: nat, bits: nat, ds: seq<nat>, b: nat, c: nat)
    requires Packing(done, acc, bits, ds, b) && c < Pow2(b)
    ensures Packing(done, Or(acc, c * Pow2(bits)), bits + b, ds + [c], b)
  {
    hide Pow2, FromDigits;
    OrDisjoint(acc, c, bits);
    JoinFits(acc, c, bits, b);
    FromDigitsSnoc(ds, c, b);
    Times(b, |ds|);
    Pow2Add(bits, 8 * |done|);
    Distribute(acc, c, Pow2(bits), Pow2(8 * |done|));
  }

  lemma PackEmits(done: seq<nat>, acc: nat, bits: nat, ds: seq<nat>, b: nat)
    requires Packing(done, acc, bits, ds, b) && bits >= 8
    ensures Packing(done + [Low(acc, 8)], High(acc, 8), bits - 8, ds, b)
  {
    hide Pow2, FromDigits, Low, High;
    HighFits(acc, 8, bits);
    FromDigitsSnoc(done, Low(acc, 8), 8);
    LowHigh(acc, 8);
    Regroup(Low(acc, 8), High(acc, 8), 8, |done|);
  }

  lemma PackFlushes(done: seq<nat>, acc: nat, bits: nat, ds: seq<nat>, b: nat)
    requires Packing(done, acc, bits, ds, b) && bits < 8
    ensures bits == 0 ==> FromDigits(done, 8) == FromDigits(ds, b)
    ensures FromDigits(done + [Low(acc, 8)], 8) == FromDigits(ds, b)
  {
    hide FromDigits, Low, Pow2;
    SmallByte(acc, bits);
    NoBits();
    FromDigitsSnoc(done, Low(acc, 8), 8);
  }

  lemma SmallByte(acc: nat, bits: nat)
    requires acc < Pow2(bits) && bits <= 8
    ensures Low(acc, 8) == acc
  {
    hide Low, High, Pow2;
    Pow2Add(bits, 8 - bits);
    Monotone(1, Pow2(8 - bits), Pow2(bits));
    Split(acc, 0, 8);
  }

  lemma NoBits()
    ensures Pow2(0) == 1
  {
  }

  /** rvq_pack_codes. The accumulator never holds more than b + 7 bits. */
  method PackCodes(codes: seq<int>, b: nat) returns (out: seq<nat>)
    requires 1 <= b <= 31 && Int32s(codes)
    ensures Packed(codes, b, out)
  {
    hide Pow2, FromDigits, Low, High, Or, Masked, Packing;
    ghost var ds := MaskedAll(codes, b);
    out := seq((|codes| * b + 7) / 8, _ => 0);
    var acc, bits, pos: nat := 0, 0, 0;
    NothingPacked(b);
    for i := 0 to |codes|
      invariant |out| == PackedSize(|codes|, b) && pos <= |out| && bits < 8
      invariant Packing(out[..pos], acc, bits, ds[..i], b)
    {
      PackTakes(out[..pos], acc, bits, ds[..i], b, ds[i]);
      assert ds[..i] + [ds[i]] == ds[..i + 1];
      acc := Or(acc, Masked(codes[i], b) * Pow2(bits));
      bits := bits + b;
      while bits >= 8
        invariant |out| == PackedSize(|codes|, b) && pos <= |out| && bits < 8 + b
        invariant Packing(out[..pos], acc, bits, ds[..i + 1], b)
      {
        PackRoom(out[..pos], acc, bits, ds[..i + 1], b, |codes|);
        PackEmits(out[..pos], acc, bits, ds[..i + 1], b);
        ghost var was := out[..pos];
        out := out[pos := Low(acc, 8)];
        assert out[..pos + 1] == was + [Low(acc, 8)];
        pos := pos + 1;
        acc := High(acc, 8);
        bits := bits - 8;
      }
    }
    assert ds[..|codes|] == ds;
    PackRoom(out[..pos], acc, bits, ds, b, |codes|);
    PackFlushes(out[..pos], acc, bits, ds, b);
    if bits > 0 {
      ByteFits(acc);
      ghost var was := out[..pos];
      out := out[pos := Low(acc, 8)];
      assert out == was + [Low(acc, 8)];
    } else {
      assert out == out[..pos];
    }
  }

  lemma ByteFits(acc: nat)
    ensures Low(acc, 8) < Pow2(8)
  {
  }

  lemma NothingPacked(b: nat)
    ensures Packing([], 0, 0, [], b)
  {
  }

  /** The buffer has room for what is still in the accumulator, and no more in the end. */
  lemma PackRoom(done: seq<nat>, acc: nat, bits: nat, ds: seq<nat>, b: nat, n: nat)
    requires Packing(done, acc, bits, ds, b) && |ds| <= n
    ensures 8 * |done| + bits <= n * b && AreDigits(done, 8)
    ensures |ds| == n ==> 8 * |done| + bits == n * b
  {
    Monotone(|ds|, n, b);
  }

  // ----- unpacking ------------------------------------------------------------------------

  /** What the unread bytes add above `bits` accumulated bits. Nothing once the input has run out,
      after which `bits` goes negative. */
  function Unread(input: seq<nat>, pos: nat, bits: int): nat
    requires pos <= |input|
  {
    if pos < |input| && bits >= 0 then FromDigits(input[pos..], 8) * Pow2(bits) else 0
  }

  /** Codes read so far, accumulator and unread bytes together spell the input. */
  ghost predicate Unpacking(input: seq<nat>, b: nat, out: seq<nat>, acc: nat, bits: int, pos: nat) {
    && pos <= |input| && (pos < |input| ==> bits >= 0)
    && AreDigits(out, b) && acc < Pow2(if bits > 0 then bits else 0)
    && FromDigits(input, 8) == FromDigits(out, b) + (acc + Unread(input, pos, bits)) * Pow2(b * |out|)
  }

  lemma {:induction false} FromDigitsCons(ds: seq<nat>, b: nat)
    requires ds != []
    ensures FromDigits(ds, b) == ds[0] + FromDigits(ds[1..], b) * Pow2(b)
  {
    hide Pow2;
    var n := |ds| - 1;
    if n == 0 {
      FirstPower(b);
      assert FromDigits(ds[..0], b) == 0;
    } else {
      FromDigitsCons(ds[..n], b);
      assert ds[..n][1..] == ds[1..][..n - 1] && ds[1..] == ds[1..][..n - 1] + [ds[n]];
      FromDigitsSnoc(ds[1..][..n - 1], ds[n], b);
      Regroup(FromDigits(ds[1..][..n - 1], b), ds[n], b, 0);
      Times(b, n - 1);
      Pow2Add(b, b * (n - 1));
      Distribute(FromDigits(ds[1..][..n - 1], b), ds[n], Pow2(b * (n - 1)), Pow2(b));
    }
  }

  lemma FirstPower(b: nat)
    ensures Pow2(0) == 1 && b * 0 == 0
  {
  }

  lemma UnpackLoads(input: seq<nat>, b: nat, out: seq<nat>, acc: nat, bits: int, pos: nat)
    requires Unpacking(input, b, out, acc, bits, pos) && pos < |input| && AreDigits(input, 8)
    ensures bits >= 0
    ensures Unpacking(input, b, out, Or(acc, input[pos] * Pow2(bits)), bits + 8, pos + 1)
  {
    hide Pow2, FromDigits;
    OrDisjoint(acc, input[pos], bits);
    JoinFits(acc, input[pos], bits, 8);
    FromDigitsCons(input[pos..], 8);
    assert input[pos..][1..] == input[pos + 1..];
    var rest := FromDigits(input[pos + 1..], 8);
    if pos + 1 == |input| { NoDigits(input[pos + 1..], 8); }
    Pow2Add(8, bits);
    Distribute(input[pos], rest, Pow2(8), Pow2(bits));
  }

  lemma UnpackTakes(input: seq<nat>, b: nat, out: seq<nat>, acc: nat, bits: int, pos: nat)
    requires Unpacking(input, b, out, acc, bits, pos) && (bits >= b || pos == |input|)
    ensures Unpacking(input, b, out + [Low(acc, b)], High(acc, b), bits - b, pos)
  {
    hide Pow2, FromDigits, Low, High;
    LowHigh(acc, b);
    FromDigitsSnoc(out, Low(acc, b), b);
    var rest := if pos < |input| then FromDigits(input[pos..], 8) * Pow2(bits - b) else 0;
    Regroup(Low(acc, b), High(acc, b) + rest, b, |out|);
    if bits >= b {
      HighFits(acc, b, bits);
      Pow2Add(bits - b, b);
      if pos < |input| { Distribute(High(acc, b), FromDigits(input[pos..], 8), Pow2(bits - b), Pow2(b)); }
    } else {
      HighNone(acc, b, if bits > 0 then bits else 0);
    }
  }

  lemma HighNone(acc: nat, b: nat, n: nat)
    requires n <= b && acc < Pow2(n)
    ensures High(acc, b) == 0 && Pow2(0) == 1
  {
    hide High, Low;
    Pow2Add(n, b - n);
    Monotone(1, Pow2(b - n), Pow2(n));
    Split(acc, 0, b);
  }

  /** rvq_unpack_codes. Codes past the end of the input come out as zero bits. */
  method UnpackCodes(input: seq<nat>, n: nat, b: nat) returns (out: seq<nat>)
    requires 1 <= b <= 31 && AreDigits(input, 8)
    ensures out == Digits(FromDigits(input, 8), b, n)
  {
    hide Pow2, FromDigits, Low, High, Or, Unpacking, Digits;
    out := [];
    var acc: nat, bits: int, pos: nat := 0, 0, 0;
    NothingUnpacked(input, b);
    for i := 0 to n
      invariant |out| == i && pos <= |input| && bits < b + 8
      invariant Unpacking(input, b, out, acc, bits, pos)
    {
      while bits < b && pos < |input|
        invariant pos <= |input| && bits < b + 8
        invariant Unpacking(input, b, out, acc, bits, pos)
        decreases |input| - pos
      {
        UnpackLoads(input, b, out, acc, bits, pos);
        acc := Or(acc, input[pos] * Pow2(bits));
        pos := pos + 1;
        bits := bits + 8;
      }
      UnpackTakes(input, b, out, acc, bits, pos);
      out := out + [Low(acc, b)];
      acc := High(acc, b);
      bits := bits - b;
    }
    UnpackEnds(input, b, out, acc, bits, pos);
  }

  lemma NothingUnpacked(input: seq<nat>, b: nat)
    ensures Unpacking(input, b, [], 0, 0, 0)
  {
    assert input[0..] == input;
  }

  lemma {:induction false} UnpackEnds(input: seq<nat>, b: nat, out: seq<nat>, acc: nat, bits: int, pos: nat)
    requires Unpacking(input, b, out, acc, bits, pos)
    ensures Digits(FromDigits(input, 8), b, |out|) == out
  {
    hide FromDigits, Digits, Pow2;
    DigitsUnique(out, b, FromDigits(input, 8), acc + Unread(input, pos, bits));
  }

  // ----- round trips ----------------------------------------------------------------------

  /** A code list has one packed form. */
  lemma PackedUnique(codes: seq<int>, b: nat, x: seq<nat>, y: seq<nat>)
    requires Int32s(codes) && Packed(codes, b, x) && Packed(codes, b, y)
    ensures x == y
  {
    hide FromDigits, Digits, Pow2;
    DigitsUnique(x, 8, FromDigits(x, 8), 0);
    DigitsUnique(y, 8, FromDigits(y, 8), 0);
  }

  /** Unpacking as many codes as were packed gives their low b bits; codes in [0, 2^b) come back
      unchanged. */
  lemma PackUnpack(codes: seq<int>, b: nat, bytes: seq<nat>)
    requires 1 <= b <= 31 && Int32s(codes) && Packed(codes, b, bytes)
    ensures Digits(FromDigits(bytes, 8), b, |codes|) == MaskedAll(codes, b)
    ensures (forall i | 0 <= i < |codes| :: 0 <= codes[i] < Pow2(b)) ==> MaskedAll(codes, b) == codes
  {
    hide FromDigits, Digits, Pow2, Low;
    DigitsUnique(MaskedAll(codes, b), b, FromDigits(bytes, 8), 0);
    forall i | 0 <= i < |codes| && 0 <= codes[i] < Pow2(b) ensures MaskedAll(codes, b)[i] == codes[i] {
      Split(codes[i], 0, b);
    }
  }

  // ----- the file reader ------------------------------------------------------------------

  /** rvq_read_file after the bytes are in memory: the code count is inferred from the size. */
  method ReadCodes(buf: seq<nat>, K: nat, b: nat) returns (r: Option<(seq<nat>, nat)>)
    requires K >= 1 && 1 <= b <= 31 && AreDigits(buf, 8)
    ensures r == Inferred(buf, K, b)
  {
    if |buf| <= 0 { return None; }
    var totalBits := |buf| * 8;
    var n := totalBits / b;
    if n == 0 || n % K != 0 { return None; }
    var codes := UnpackCodes(buf, n, b);
    r := Some((codes, n / K));
  }

  function Inferred(buf: seq<nat>, K: nat, b: nat): Option<(seq<nat>, nat)>
    requires K >= 1 && b >= 1
  {
    var n := |buf| * 8 / b;
    if |buf| == 0 || n == 0 || n % K != 0 then None else Some((Digits(FromDigits(buf, 8), b, n), n / K))
  }

  /** Bits the packer pads the last byte with. */
  function Padding(n: nat, b: nat): nat { PackedSize(n, b) * 8 - n * b }

  /** The reader infers the right count exactly when the padding is shorter than a code. */
  lemma CountInferred(n: nat, b: nat)
    requires b >= 1
    ensures PackedSize(n, b) * 8 / b == n <==> Padding(n, b) < b
    ensures b >= 8 ==> PackedSize(n, b) * 8 / b == n
  {
    var v, pad := PackedSize(n, b) * 8, Padding(n, b);
    Quotient(v, b);
    if pad < b {
      SameQuotient(pad, n, v % b, v / b, b);
    }
  }

  /** A written file of K * T codes reads back as those codes and T frames if and only if the
      padding is shorter than a code, which it always is for codes of at least 8 bits. */
  lemma WriteRead(codes: seq<int>, K: nat, T: nat, b: nat, bytes: seq<nat>)
    requires 1 <= b <= 31 && K >= 1 && T >= 1 && |codes| == K * T
    requires Int32s(codes) && Packed(codes, b, bytes)
    ensures Inferred(bytes, K, b) == Some((MaskedAll(codes, b), T)) <==> Padding(|codes|, b) < b
    ensures b >= 8 ==> Padding(|codes|, b) < b
  {
    hide FromDigits, Digits, Pow2, Low;
    CountInferred(|codes|, b);
    PackUnpack(codes, b, bytes);
    Monotone(1, T, K);
    Monotone(1, |codes|, b);
    Frames(K, T);
  }

  lemma Frames(K: nat, T: nat)
    requires K >= 1
    ensures K * T % K == 0 && K * T / K == T
  {
    Quotient(K * T, K);
    SameQuotient(0, T, K * T % K, K * T / K, K);
  }

  /** With one-bit codes the reader sees the padding as codes: one code written, eight read. */
  lemma ShortCodesMiscount(bytes: seq<nat>)
    requires Packed([1], 1, bytes)
    ensures Inferred(bytes, 1, 1) == Some((Digits(FromDigits(bytes, 8), 1, 8), 8))
  {
  }
}
