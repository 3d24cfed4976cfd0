/** The counter-based random generator Philox4x32-10 (src/philox.h). Machine words are bounded
    integers; exclusive or is defined bit by bit. */
module Philox {
  import opened Bits

  const WORD := 0x1_0000_0000
  const M0 := 0xD2511F53
  const M1 := 0xCD9E8D57
  const W0: Word := 0x9E3779B9
  const W1: Word := 0xBB67AE85

  type Word = w: int | 0 <= w < WORD

  datatype Block = Block(x: Word, y: Word, z: Word, w: Word)

  // ----- exclusive or ---------------------------------------------------------------------

  /** Bitwise exclusive or of the low n bits. */
  function XorBits(a: nat, b: nat, n: nat): (r: nat)
    ensures r < Pow2(n)
  {
    if n == 0 then 0 else (a + b) % 2 + 2 * XorBits(a / 2, b / 2, n - 1)
  }

  lemma {:induction false} XorUndone(a: nat, b: nat, n: nat)
    requires a < Pow2(n)
    ensures XorBits(XorBits(a, b, n), b, n) == a
  {
    hide XorBits;
    if n == 0 {
      NoBits(XorBits(a, b, n), b);
    } else {
      XorStep(a, b, n);
      var low, high := (a + b) % 2, XorBits(a / 2, b / 2, n - 1);
      assert XorBits(a, b, n) == low + 2 * high;
      XorUndone(a / 2, b / 2, n - 1);
      BitAndRest(low, high);
      BitTwice(a, b, low + 2 * high);
      XorStep(low + 2 * high, b, n);
    }
  }

  lemma NoBits(a: nat, b: nat)
    ensures XorBits(a, b, 0) == 0
  {
  }

  lemma XorStep(a: nat, b: nat, n: nat)
    requires n > 0
    ensures XorBits(a, b, n) == (a + b) % 2 + 2 * XorBits(a / 2, b / 2, n - 1)
  {
  }

  lemma BitAndRest(low: nat, high: nat)
    requires low < 2
    ensures (low + 2 * high) / 2 == high && (low + 2 * high) % 2 == low
  {
  }

  lemma BitTwice(a: nat, b: nat, c: nat)
    requires c % 2 == (a + b) % 2
    ensures (c + b) % 2 == a % 2
    ensures a == a % 2 + 2 * (a / 2)
  {
  }

  /** Bit i of an exclusive or is the sum of the two bits i without its carry. */
  lemma {:induction false} XorBit(a: nat, b: nat, n: nat, i: nat)
    requires i < n
    ensures Bit(XorBits(a, b, n), i) == (Bit(a, i) + Bit(b, i)) % 2
  {
    hide XorBits;
    XorStep(a, b, n);
    var low, high := (a + b) % 2, XorBits(a / 2, b / 2, n - 1);
    BitAndRest(low, high);
    if i > 0 { XorBit(a / 2, b / 2, n - 1, i - 1); }
  }

  /** Bit i of a number, counted from the least significant. */
  function Bit(a: nat, i: nat): (r: nat)
    ensures r < 2
  {
    if i == 0 then a % 2 else Bit(a / 2, i - 1)
  }

  function Xor(a: Word, b: Word): (r: Word) {
    WordBits();
    XorBits(a, b, 32)
  }

  lemma XorTwice(a: Word, b: Word)
    ensures Xor(Xor(a, b), b) == a
  {
    WordBits();
    XorUndone(a, b, 32);
  }

  // ----- multiplication -------------------------------------------------------------------

  /** mulhilo32: the 64-bit product in two words. */
  function Hi(a: Word, b: Word): (r: Word)
  {
    HiFits(a, b);
    a * b / WORD
  }

  function Lo(a: Word, b: Word): (r: Word) { a * b % WORD }

  lemma HiFits(a: Word, b: Word)
    ensures 0 <= a * b / WORD < WORD
  {
    Product(a, WORD - 1, b);
    var p := a * b;
    assert 0 <= p <= (WORD - 1) * b;
  }

  lemma Product(a: nat, c: nat, b: nat)
    requires a <= c
    ensures 0 <= a * b <= c * b
  {
  }

  lemma Residue(n: int, r: Word, k: int)
    requires n == r + WORD * k
    ensures n % WORD == r
  {
  }

  const INV0 := 0x991A7CDB
  const INV1 := 0x6D7CAE67

  /** Both multipliers are odd, so multiplying the low word by the inverse modulo 2^32 gives the
      factor back, from either side. */
  lemma MultipliersInvert(x: Word)
    ensures Lo(INV0, Lo(M0, x)) == x && Lo(M0, Lo(INV0, x)) == x
    ensures Lo(INV1, Lo(M1, x)) == x && Lo(M1, Lo(INV1, x)) == x
  {
    Residue(INV0 * Lo(M0, x), x, 2110275209 * x - INV0 * (M0 * x / WORD));
    Residue(M0 * Lo(INV0, x), x, 2110275209 * x - M0 * (INV0 * x / WORD));
    Residue(INV1 * Lo(M1, x), x, 1475389199 * x - INV1 * (M1 * x / WORD));
    Residue(M1 * Lo(INV1, x), x, 1475389199 * x - M1 * (INV1 * x / WORD));
  }

  // ----- rounds ---------------------------------------------------------------------------

  /** philox_round. */
  function Round(c: Block, k0: Word, k1: Word): Block {
    Block(Xor(Xor(Hi(M1, c.z), c.y), k0), Lo(M1, c.z), Xor(Xor(Hi(M0, c.x), c.w), k1), Lo(M0, c.x))
  }

  /** The counter a round came from. */
  function Unround(r: Block, k0: Word, k1: Word): Block {
    var x, z := Lo(INV0, r.w), Lo(INV1, r.y);
    Block(x, Xor(Xor(r.x, k0), Hi(M1, z)), z, Xor(Xor(r.z, k1), Hi(M0, x)))
  }

  lemma {:induction false} XorCommutes(a: nat, b: nat, n: nat)
    ensures XorBits(a, b, n) == XorBits(b, a, n)
  {
    if n > 0 { XorCommutes(a / 2, b / 2, n - 1); }
  }

  /** (h ^ y) ^ k, then ^ k and ^ h, is y, and the other way round. */
  lemma MaskUndone(h: Word, y: Word, k: Word)
    ensures Xor(Xor(Xor(Xor(h, y), k), k), h) == y
    ensures Xor(Xor(h, Xor(Xor(y, k), h)), k) == y
  {
    hide XorBits;
    XorTwice(Xor(h, y), k);
    XorCommutes(h, y, 32);
    XorTwice(y, h);
    XorCommutes(h, Xor(Xor(y, k), h), 32);
    XorTwice(Xor(y, k), h);
    XorTwice(y, k);
  }

  /** A round loses nothing and reaches every block. */
  lemma RoundInverts(c: Block, k0: Word, k1: Word)
    ensures Unround(Round(c, k0, k1), k0, k1) == c && Round(Unround(c, k0, k1), k0, k1) == c
  {
    hide Xor, Hi, Lo;
    MultipliersInvert(c.x);
    MultipliersInvert(c.z);
    MultipliersInvert(c.y);
    MultipliersInvert(c.w);
    MaskUndone(Hi(M1, c.z), c.y, k0);
    MaskUndone(Hi(M0, c.x), c.w, k1);
    var u := Unround(c, k0, k1);
    MaskUndone(Hi(M1, u.z), c.x, k0);
    MaskUndone(Hi(M0, u.x), c.z, k1);
  }

  /** What a round does to the four words: both products are split, their low words go out as they are,
      their high words under the other two words and the key. */
  lemma RoundWords(c: Block, k0: Word, k1: Word)
    ensures var r := Round(c, k0, k1);
            && 0xCD9E8D57 * c.z == Xor(Xor(r.x, k0), c.y) * 0x1_0000_0000 + r.y
            && 0xD2511F53 * c.x == Xor(Xor(r.z, k1), c.w) * 0x1_0000_0000 + r.w
  {
    hide Xor;
    XorTwice(Xor(Hi(M1, c.z), c.y), k0);
    XorTwice(Hi(M1, c.z), c.y);
    XorTwice(Xor(Hi(M0, c.x), c.w), k1);
    XorTwice(Hi(M0, c.x), c.w);
  }

  /** The key word of round i. */
  function RoundKey(seed: Word, step: Word, i: nat): Word { (seed + step * i) % WORD }

  /** Unsigned 32-bit addition. */
  function Bump(k: Word, step: Word): Word { (k + step) % WORD }

  /** The first n rounds under a key. */
  function Rounds(c: Block, lo: Word, hi: Word, n: nat): Block {
    if n == 0 then c else Round(Rounds(c, lo, hi, n - 1), RoundKey(lo, W0, n - 1), RoundKey(hi, W1, n - 1))
  }

  function Unrounds(r: Block, lo: Word, hi: Word, n: nat): Block
    decreases n
  {
    if n == 0 then r else Unrounds(Unround(r, RoundKey(lo, W0, n - 1), RoundKey(hi, W1, n - 1)), lo, hi, n - 1)
  }

  /** Under every key, any number of rounds permutes the 2^128 blocks. */
  lemma {:induction false} RoundsPermute(c: Block, lo: Word, hi: Word, n: nat)
    ensures Unrounds(Rounds(c, lo, hi, n), lo, hi, n) == c && Rounds(Unrounds(c, lo, hi, n), lo, hi, n) == c
    decreases n
  {
    hide Round, Unround, RoundKey;
    if n > 0 {
      var k0, k1 := RoundKey(lo, W0, n - 1), RoundKey(hi, W1, n - 1);
      RoundInverts(Rounds(c, lo, hi, n - 1), k0, k1);
      RoundsPermute(c, lo, hi, n - 1);
      RoundInverts(c, k0, k1);
      RoundsPermute(Unround(c, k0, k1), lo, hi, n - 1);
    }
  }

  lemma NextKey(seed: Word, step: Word, i: nat)
    ensures RoundKey(seed, step, 0) == seed
    ensures Bump(RoundKey(seed, step, i), step) == RoundKey(seed, step, i + 1)
  {
    var n := seed + step * i;
    assert step * (i + 1) == step * i + step;
    Residue((n % WORD) + step, (n + step) % WORD, (n + step) / WORD - n / WORD);
  }

  /** One unrolled step: the round, then the key bumped for the next. */
  lemma StepRound(c: Block, lo: Word, hi: Word, i: nat)
    ensures Round(Rounds(c, lo, hi, i), RoundKey(lo, W0, i), RoundKey(hi, W1, i)) == Rounds(c, lo, hi, i + 1)
    ensures Bump(RoundKey(lo, W0, i), W0) == RoundKey(lo, W0, i + 1)
    ensures Bump(RoundKey(hi, W1, i), W1) == RoundKey(hi, W1, i + 1)
  {
    NextKey(lo, W0, i);
    NextKey(hi, W1, i);
  }

  /** philox4x32_10. */
  method Philox4x32x10(counter: Block, seedLo: Word, seedHi: Word) returns (ctr: Block)
    ensures ctr == Rounds(counter, seedLo, seedHi, 10)
  {
    hide *;
    ghost var c, lo, hi := counter, seedLo, seedHi;
    NoRounds(c, lo, hi);
    var k0, k1 := seedLo, seedHi;
    StepRound(c, lo, hi, 0);
    ctr := Round(counter, k0, k1);
    k0, k1 := Bump(k0, W0), Bump(k1, W1);
    StepRound(c, lo, hi, 1);
    ctr := Round(ctr, k0, k1);
    k0, k1 := Bump(k0, W0), Bump(k1, W1);
    StepRound(c, lo, hi, 2);
    ctr := Round(ctr, k0, k1);
    k0, k1 := Bump(k0, W0), Bump(k1, W1);
    StepRound(c, lo, hi, 3);
    ctr := Round(ctr, k0, k1);
    k0, k1 := Bump(k0, W0), Bump(k1, W1);
    StepRound(c, lo, hi, 4);
    ctr := Round(ctr, k0, k1);
    k0, k1 := Bump(k0, W0), Bump(k1, W1);
    StepRound(c, lo, hi, 5);
    ctr := Round(ctr, k0, k1);
    k0, k1 := Bump(k0, W0), Bump(k1, W1);
    StepRound(c, lo, hi, 6);
    ctr := Round(ctr, k0, k1);
    k0, k1 := Bump(k0, W0), Bump(k1, W1);
    StepRound(c, lo, hi, 7);
    ctr := Round(ctr, k0, k1);
    k0, k1 := Bump(k0, W0), Bump(k1, W1);
    StepRound(c, lo, hi, 8);
    ctr := Round(ctr, k0, k1);
    k0, k1 := Bump(k0, W0), Bump(k1, W1);
    StepRound(c, lo, hi, 9);
    ctr := Round(ctr, k0, k1);
  }

  lemma NoRounds(c: Block, lo: Word, hi: Word)
    ensures Rounds(c, lo, hi, 0) == c && RoundKey(lo, W0, 0) == lo && RoundKey(hi, W1, 0) == hi
  {
  }

  /** One round after the other, each under both key words raised once more by the golden ratio's and
      the square root's words. */
  lemma RoundAfterRound(c: Block, lo: Word, hi: Word, n: nat)
    ensures Rounds(c, lo, hi, 0) == c
    ensures Rounds(c, lo, hi, n + 1)
         == Round(Rounds(c, lo, hi, n), (lo + 0x9E3779B9 * n) % 0x1_0000_0000, (hi + 0xBB67AE85 * n) % 0x1_0000_0000)
  {
    hide Round;
  }

  // ----- draws ----------------------------------------------------------------------------

  /** Two's complement, as the cast to uint64_t reads it. */
  function Unsigned64(s: int): (r: nat)
    requires -0x8000_0000_0000_0000 <= s < 0x8000_0000_0000_0000
    ensures r < WORD * WORD
  {
    if s < 0 then s + WORD * WORD else s
  }

  /** The counter of a subsequence. */
  function Counter(ctrLo: Word, subseq: int): Block
    requires -0x8000_0000_0000_0000 <= subseq < 0x8000_0000_0000_0000
  {
    var s := Unsigned64(subseq);
    Block(ctrLo, 0, s % WORD, s / WORD)
  }

  /** The generator's block for a subsequence under a 64-bit seed. */
  function DrawBlock(seed: int, subseq: int, ctrLo: Word): Block
    requires -0x8000_0000_0000_0000 <= seed < 0x8000_0000_0000_0000
    requires -0x8000_0000_0000_0000 <= subseq < 0x8000_0000_0000_0000
  {
    Rounds(Counter(ctrLo, subseq), Unsigned64(seed) % WORD, Unsigned64(seed) / WORD, 10)
  }

  function Uniform(b: Block): (u: real)
    ensures 0.0 < u < 1.0
  {
    (b.x as real + 0.5) / WORD as real
  }

  /** Different subsequences of one seed never share a block of random bits. */
  lemma DrawsDiffer(seed: int, s: int, t: int, ctrLo: Word)
    requires -0x8000_0000_0000_0000 <= seed < 0x8000_0000_0000_0000
    requires -0x8000_0000_0000_0000 <= s < 0x8000_0000_0000_0000
    requires -0x8000_0000_0000_0000 <= t < 0x8000_0000_0000_0000
    requires s != t
    ensures DrawBlock(seed, s, ctrLo) != DrawBlock(seed, t, ctrLo)
  {
    hide Rounds, Unrounds;
    var lo, hi := Unsigned64(seed) % WORD, Unsigned64(seed) / WORD;
    RoundsPermute(Counter(ctrLo, s), lo, hi, 10);
    RoundsPermute(Counter(ctrLo, t), lo, hi, 10);
    assert Counter(ctrLo, s) != Counter(ctrLo, t);
  }

  /** philox_uniform_fill: element k draws from subsequence start + k. */
  method UniformFill(seed: int, start: int, ctrLo: Word, out: array<real>, n: nat)
    requires -0x8000_0000_0000_0000 <= seed < 0x8000_0000_0000_0000
    requires -0x8000_0000_0000_0000 <= start && start + n <= 0x8000_0000_0000_0000 && n <= out.Length
    modifies out
    ensures forall k | 0 <= k < n :: out[k] == Uniform(DrawBlock(seed, start + k, ctrLo))
    ensures forall k | n <= k < out.Length :: out[k] == old(out[k])
  {
    hide Rounds;
    var slo, shi := Unsigned64(seed) % WORD, Unsigned64(seed) / WORD;
    for k := 0 to n
      invariant forall j | 0 <= j < k :: out[j] == Uniform(DrawBlock(seed, start + j, ctrLo))
      invariant forall j | n <= j < out.Length :: out[j] == old(out[j])
    {
      var s := Unsigned64(start + k);
      var r := Philox4x32x10(Block(ctrLo, 0, s % WORD, s / WORD), slo, shi);
      out[k] := (r.x as real + 0.5) / WORD as real;
    }
  }

  /** A draw spelled out: ten rounds over the caller's counter word, zero and the two words of the
      subsequence, under the two words of the seed; its uniform number is the first word, half a step
      up, over 2^32. */
  lemma DrawSpelled(seed: int, subseq: int, ctrLo: Word)
    requires -0x8000_0000_0000_0000 <= seed < 0x8000_0000_0000_0000
    requires -0x8000_0000_0000_0000 <= subseq < 0x8000_0000_0000_0000
    ensures var k, s := seed % 0x1_0000_0000_0000_0000, subseq % 0x1_0000_0000_0000_0000;
            var b := DrawBlock(seed, subseq, ctrLo);
            && b == Rounds(Block(ctrLo, 0, s % 0x1_0000_0000, s / 0x1_0000_0000), k % 0x1_0000_0000, k / 0x1_0000_0000, 10)
            && Uniform(b) * 4294967296.0 == b.x as real + 0.5
  {
    hide Rounds;
    assert seed % 0x1_0000_0000_0000_0000 == Unsigned64(seed);
    assert subseq % 0x1_0000_0000_0000_0000 == Unsigned64(subseq);
  }
}
