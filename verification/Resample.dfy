/** The polyphase resampler's indexing (src/audio-resample.h). The kernel's values are a parameter;
    what is modelled is which input sample meets which kernel tap, and which output slot is filled. */
module Resample {
  import opened Seqs
  import opened Multiples
  import opened Vectors
  import Bits

  // ----- rate reduction -------------------------------------------------------------------

  ghost predicate Divides(d: nat, n: nat) { d > 0 && exists q: nat :: n == Scale(q, d) }

  /** g is a common divisor that every common divisor divides. */
  ghost predicate IsGcd(g: nat, a: nat, b: nat) {
    Divides(g, a) && Divides(g, b) && forall d: nat | Divides(d, a) && Divides(d, b) :: Divides(d, g)
  }

  lemma DividesSum(d: nat, a: nat, b: nat, q: nat)
    requires Divides(d, a) && Divides(d, b)
    ensures Divides(d, a + q * b)
  {
    var x: nat :| a == Scale(x, d);
    var y: nat :| b == Scale(y, d);
    assert a + q * b == Scale(x + q * y, d) by { Collect(x, q, y, d); }
  }

  lemma Collect(x: nat, q: nat, y: nat, d: nat)
    ensures x * d + q * (y * d) == (x + q * y) * d
  {
    assert q * (y * d) == q * y * d;
  }

  lemma DividesDifference(d: nat, a: nat, b: nat, q: nat)
    requires Divides(d, a) && Divides(d, b) && q * b <= a
    ensures Divides(d, a - q * b)
  {
    var x: nat :| a == Scale(x, d);
    var y: nat :| b == Scale(y, d);
    Collect(0, q, y, d);
    if x < q * y {
      Bits.Monotone(x + 1, q * y, d);
      Bits.OneMore(x, d);
    }
    Difference(x, q * y, d);
    assert a - q * b == Scale(x - q * y, d);
  }

  lemma Difference(x: nat, y: nat, d: nat)
    requires y <= x
    ensures (x - y) * d == x * d - y * d
  {
  }

  lemma DividesZero(d: nat)
    requires d > 0
    ensures Divides(d, 0) && Divides(d, d)
  {
    assert 0 == Scale(0, d) && d == Scale(1, d);
  }

  /** A remainder step keeps the common divisors. */
  lemma StepKeeps(d: nat, a: nat, b: nat)
    requires b > 0
    ensures Divides(d, a) && Divides(d, b) <==> Divides(d, b) && Divides(d, a % b)
  {
    hide Divides;
    Bits.Quotient(a, b);
    var q := a / b;
    if Divides(d, a) && Divides(d, b) { DividesDifference(d, a, b, q); }
    if Divides(d, b) && Divides(d, a % b) { DividesSum(d, a % b, b, q); }
  }

  /** audio_resample_gcd. */
  method Gcd(a0: nat, b0: nat) returns (a: nat)
    requires a0 > 0
    ensures IsGcd(a, a0, b0)
  {
    hide Divides;
    a := a0;
    var b: nat := b0;
    while b != 0
      invariant a > 0
      invariant forall d: nat :: Divides(d, a) && Divides(d, b) <==> Divides(d, a0) && Divides(d, b0)
      decreases b
    {
      forall d: nat ensures Divides(d, a) && Divides(d, b) <==> Divides(d, b) && Divides(d, a % b) {
        StepKeeps(d, a, b);
      }
      var t: nat := b;
      b := a % b;
      a := t;
    }
    forall d: nat | d > 0 ensures Divides(d, 0) {
      DividesZero(d);
    }
    DividesZero(a);
    forall d: nat | Divides(d, a) ensures d > 0 {
      PositiveDivisor(d, a);
    }
  }

  lemma PositiveDivisor(d: nat, n: nat)
    requires Divides(d, n)
    ensures d > 0 && (n > 0 ==> d <= n) && n == n / d * d
  {
    var q: nat :| n == Scale(q, d);
    Bits.Quotient(n, d);
    Bits.SameQuotient(0, q, n % d, n / d, d);
    if n > 0 { Bits.Monotone(1, q, d); }
  }

  // ----- lengths --------------------------------------------------------------------------

  /** The least n with n * b >= a. */
  lemma CeilDivLeast(a: nat, b: nat, n: nat)
    requires b > 0
    ensures CeilDiv(a, b) <= n <==> a <= n * b
  {
    var c := CeilDiv(a, b);
    Bits.Quotient(a + (b - 1), b);
    if c <= n { Bits.Monotone(c, n, b); }
    if n < c { Bits.Monotone(n + 1, c, b); Bits.OneMore(n, b); }
  }

  /** Output length: ceil(srOut * n / srIn), rounded once. */
  function Target(n: nat, srIn: nat, srOut: nat): nat
    requires srIn > 0
  {
    CeilDiv(srOut * n, srIn)
  }

  /** The output is the shortest that lasts at least as long as the input. */
  lemma TargetSpelled(n: nat, srIn: nat, srOut: nat, m: nat)
    requires srIn > 0
    ensures Target(n, srIn, srOut) <= m <==> srOut * n <= m * srIn
  {
    CeilDivLeast(srOut * n, srIn, m);
  }

  /** Dividing both rates by a common factor keeps the length. */
  lemma TargetReduced(n: nat, orig: nat, newf: nat, g: nat)
    requires orig > 0 && g > 0 && orig * g > 0
    ensures Target(n, orig * g, newf * g) == CeilDiv(newf * n, orig)
  {
    var t, u := Target(n, orig * g, newf * g), CeilDiv(newf * n, orig);
    Reduced(n, orig, newf, g, t);
    Reduced(n, orig, newf, g, u);
  }

  lemma Reduced(n: nat, orig: nat, newf: nat, g: nat, t: nat)
    requires orig > 0 && g > 0 && orig * g > 0
    ensures Target(n, orig * g, newf * g) <= t <==> CeilDiv(newf * n, orig) <= t
  {
    hide CeilDiv;
    CeilDivLeast(newf * g * n, orig * g, t);
    CeilDivLeast(newf * n, orig, t);
    Swapped(newf, g, n);
    Associated(t, orig, g);
    ScaledOrder(newf * n, t * orig, g);
  }

  lemma Swapped(a: nat, b: nat, c: nat)
    ensures a * b * c == (a * c) * b
  {
  }

  lemma Associated(a: nat, b: nat, c: nat)
    ensures a * (b * c) == (a * b) * c
  {
  }

  lemma ScaledOrder(a: nat, b: nat, g: nat)
    requires g > 0
    ensures a <= b <==> a * g <= b * g
  {
    if a <= b { Bits.Monotone(a, b, g); }
    if b < a { Bits.Monotone(b + 1, a, g); Bits.OneMore(b, g); }
  }

  /** The strided convolution yields at least as many samples as are wanted, so every output slot is
      filled. */
  lemma EnoughSamples(n: nat, orig: nat, newf: nat)
    requires orig > 0
    ensures CeilDiv(newf * n, orig) <= (n / orig + 1) * newf
  {
    Bits.Quotient(n, orig);
    var q := n / orig;
    Bits.OneMore(q, orig);
    Bits.Monotone(n, (q + 1) * orig, newf);
    Swapped(q + 1, newf, orig);
    CeilDivLeast(newf * n, orig, (q + 1) * newf);
  }

  // ----- the convolution ------------------------------------------------------------------

  /** The input, continued with silence on both sides. */
  function Sample(input: seq<real>, i: int): real { if 0 <= i < |input| then input[i] else 0.0 }

  /** The first n taps of a filter laid over the input from position `start`. */
  function Filtered(input: seq<real>, w: seq<real>, start: int, n: nat): real
    requires n <= |w|
  {
    if n == 0 then 0.0 else Filtered(input, w, start, n - 1) + Sample(input, start + (n - 1)) * w[n - 1]
  }

  datatype Kernel = Kernel(orig: nat, newf: nat, width: nat, taps: seq<seq<real>>)

  predicate KernelOk(k: Kernel) {
    k.orig > 0 && k.newf > 0 && |k.taps| == k.newf && forall j | 0 <= j < k.newf :: |k.taps[j]| == 2 * k.width + k.orig
  }

  /** Output sample t: phase t mod newf of the kernel, over the input around frame t / newf. */
  function Resampled(input: seq<real>, k: Kernel, t: nat): real
    requires KernelOk(k)
  {
    Filtered(input, k.taps[t % k.newf], t / k.newf * k.orig - k.width, 2 * k.width + k.orig)
  }

  /** Output t = q * newf + j spelled out: the sum of the products of phase j of the kernel with the
      input from `width` samples before input q * orig on, silence outside. */
  lemma ResampledSpelled(input: seq<real>, k: Kernel, t: nat, q: nat, j: nat, start: int, products: seq<real>)
    requires KernelOk(k) && j < k.newf && t == q * k.newf + j && start == q * k.orig - k.width
    requires |products| == 2 * k.width + k.orig
    requires forall i | 0 <= i < |products| ::
               products[i] == (if 0 <= start + i < |input| then input[start + i] else 0.0) * k.taps[j][i]
    ensures Resampled(input, k, t) == Total(products)
  {
    hide Filtered, Total;
    PhaseOf(t, q, j, k.newf);
    FilteredIsTotal(input, k.taps[j], start, products, |products|);
    assert products[..|products|] == products;
  }

  lemma PhaseOf(t: nat, q: nat, j: nat, n: nat)
    requires j < n && t == q * n + j
    ensures t % n == j && t / n == q
  {
    Bits.Quotient(t, n);
    Bits.SameQuotient(j, q, t % n, t / n, n);
  }

  lemma {:induction false} FilteredIsTotal(input: seq<real>, w: seq<real>, start: int, products: seq<real>, n: nat)
    requires n <= |products| <= |w|
    requires forall i | 0 <= i < |products| ::
               products[i] == (if 0 <= start + i < |input| then input[start + i] else 0.0) * w[i]
    ensures Filtered(input, w, start, n) == Total(products[..n])
  {
    if n > 0 {
      FilteredIsTotal(input, w, start, products, n - 1);
      assert products[..n][..n - 1] == products[..n - 1];
    } else {
      assert products[..0] == [];
    }
  }

  /** Delaying the input by a block of `orig` samples delays the output by `newf`. */
  lemma DelayCommutes(input: seq<real>, delayed: seq<real>, k: Kernel, t: nat)
    requires KernelOk(k) && forall i: int :: Sample(delayed, i + k.orig) == Sample(input, i)
    ensures Resampled(delayed, k, t + k.newf) == Resampled(input, k, t)
  {
    Bits.Quotient(t, k.newf);
    Bits.Quotient(t + k.newf, k.newf);
    Bits.OneMore(t / k.newf, k.newf);
    Bits.SameQuotient(t % k.newf, t / k.newf + 1, (t + k.newf) % k.newf, (t + k.newf) / k.newf, k.newf);
    Bits.OneMore(t / k.newf, k.orig);
    DelayFilter(input, delayed, k.taps[t % k.newf], t / k.newf * k.orig - k.width, k.orig, 2 * k.width + k.orig);
  }

  lemma {:induction false} DelayFilter(input: seq<real>, delayed: seq<real>, w: seq<real>, start: int, lag: nat, n: nat)
    requires n <= |w| && forall i: int :: Sample(delayed, i + lag) == Sample(input, i)
    ensures Filtered(delayed, w, start + lag, n) == Filtered(input, w, start, n)
  {
    if n > 0 {
      DelayFilter(input, delayed, w, start, lag, n - 1);
      assert Sample(delayed, (start + (n - 1)) + lag) == Sample(input, start + (n - 1));
    }
  }

  /** The padded buffer and the strided reads stay in bounds of each other. */
  lemma ReadsInBounds(n: nat, k: Kernel, t: nat)
    requires KernelOk(k) && t < (n / k.orig + 1) * k.newf
    ensures t / k.newf * k.orig + (2 * k.width + k.orig) <= n + 2 * k.width + k.orig
  {
    Bits.Quotient(t, k.newf);
    Bits.Quotient(n, k.orig);
    var pos, q := t / k.newf, n / k.orig;
    if pos > q { Bits.Monotone(q + 1, pos, k.newf); }
    Bits.Monotone(pos, q, k.orig);
  }

  /** All output samples of a channel. */
  function Whole(input: seq<real>, k: Kernel, target: nat): (r: seq<real>)
    requires KernelOk(k)
    ensures |r| == target
  {
    seq(target, t requires 0 <= t < target => Resampled(input, k, t))
  }

  lemma Lengths(n: nat, k: Kernel)
    requires KernelOk(k)
    ensures var np, K := n + 2 * k.width + k.orig, 2 * k.width + k.orig;
            np >= K && CeilDiv(k.newf * n, k.orig) <= ((np - K) / k.orig + 1) * k.newf
                       == (n / k.orig + 1) * k.newf
  {
    EnoughSamples(n, k.orig, k.newf);
  }

  /** audio_resample_apply_mono, writing at an offset of the planar output. */
  method ApplyMono(input: seq<real>, k: Kernel, out: array<real>, base: nat, target: nat)
    requires KernelOk(k) && target == CeilDiv(k.newf * |input|, k.orig) && base + target <= out.Length
    modifies out
    ensures out[..] == old(out[..base]) + Whole(input, k, target) + old(out[base + target..])
  {
    hide CeilDiv, Resampled;
    var K := 2 * k.width + k.orig;
    var padded := seq(k.width, _ => 0.0) + input + seq(k.width + k.orig, _ => 0.0);
    var np := |input| + 2 * k.width + k.orig;
    Lengths(|input|, k);
    var perChannel := (np - K) / k.orig + 1;
    var total := perChannel * k.newf;
    var outLen := if target < total then target else total;
    assert outLen == target;
    ConvolveAll(input, padded, k, out, base, target);
    assert out[..] == old(out[..base]) + Whole(input, k, target) + old(out[base + target..]);
  }

  method ConvolveAll(input: seq<real>, padded: seq<real>, k: Kernel, out: array<real>, base: nat, outLen: nat)
    requires KernelOk(k) && outLen <= (|input| / k.orig + 1) * k.newf && base + outLen <= out.Length
    requires padded == seq(k.width, _ => 0.0) + input + seq(k.width + k.orig, _ => 0.0)
    modifies out
    ensures forall t | 0 <= t < outLen :: out[base + t] == Whole(input, k, outLen)[t]
    ensures forall i | 0 <= i < out.Length && !(base <= i < base + outLen) :: out[i] == old(out[i])
  {
    hide KernelOk, Filtered;
    for t := 0 to outLen
      invariant forall s | 0 <= s < t :: out[base + s] == Whole(input, k, outLen)[s]
      invariant forall i | 0 <= i < out.Length && !(base <= i < base + outLen) :: out[i] == old(out[i])
    {
      ReadsInBounds(|input|, k, t);
      PhaseExists(k, t);
      var sum := Convolve(input, padded, k, t % k.newf, t / k.newf);
      assert sum == Resampled(input, k, t);
      out[base + t] := sum;
    }
  }

  lemma PhaseExists(k: Kernel, t: nat)
    requires KernelOk(k)
    ensures k.newf > 0 && k.orig > 0 && t / k.newf >= 0 && t % k.newf < k.newf == |k.taps|
  {
    Bits.Quotient(t, k.newf);
  }

  lemma FilterNone(input: seq<real>, w: seq<real>, start: int)
    ensures Filtered(input, w, start, 0) == 0.0
  {
  }

  lemma FilterStep(input: seq<real>, w: seq<real>, start: int, n: nat)
    requires n < |w|
    ensures Filtered(input, w, start, n + 1) == Filtered(input, w, start, n) + Sample(input, start + n) * w[n]
  {
  }

  lemma PaddedAt(input: seq<real>, k: Kernel, padded: seq<real>, i: nat)
    requires padded == seq(k.width, _ => 0.0) + input + seq(k.width + k.orig, _ => 0.0) && i < |padded|
    ensures padded[i] == Sample(input, i - k.width)
  {
  }

  method Convolve(input: seq<real>, padded: seq<real>, k: Kernel, chan: nat, pos: nat) returns (sum: real)
    requires KernelOk(k) && chan < k.newf
    requires padded == seq(k.width, _ => 0.0) + input + seq(k.width + k.orig, _ => 0.0)
    requires pos * k.orig + (2 * k.width + k.orig) <= |padded|
    ensures sum == Filtered(input, k.taps[chan], pos * k.orig - k.width, 2 * k.width + k.orig)
  {
    hide Filtered, Sample;
    var start := pos * k.orig;
    sum := 0.0;
    FilterNone(input, k.taps[chan], start - k.width);
    for i := 0 to 2 * k.width + k.orig
      invariant sum == Filtered(input, k.taps[chan], start - k.width, i)
    {
      PaddedAt(input, k, padded, start + i);
      FilterStep(input, k.taps[chan], start - k.width, i);
      sum := sum + padded[start + i] * k.taps[chan][i];
    }
  }

  // ----- the public entry -----------------------------------------------------------------

  /** audio_resample: planar channels of n samples each. None for an empty or senseless request; the
      build parameter stands for audio_resample_build_kernel. */
  method AudioResample(input: seq<real>, n: nat, srIn: nat, srOut: nat, nch: nat, build: (nat, nat) -> Kernel)
    returns (r: Option<(array<real>, nat)>)
    requires |input| == Scale(nch, n)
    requires forall o: nat, f: nat | o > 0 && f > 0 ::
               KernelOk(build(o, f)) && build(o, f).orig == o && build(o, f).newf == f
    ensures r.None? <==> n == 0 || srIn == 0 || srOut == 0 || nch == 0
    ensures r.Some? ==> r.value.1 == Target(n, srIn, srOut) && fresh(r.value.0)
    ensures r.Some? && srIn == srOut ==> r.value.0[..] == input
    ensures r.Some? && srIn != srOut ==>
              && r.value.0.Length == Scale(nch, r.value.1)
              && exists orig: nat, newf: nat, g: nat ::
                   && IsGcd(g, srIn, srOut) && srIn == orig * g && srOut == newf * g && orig > 0 && newf > 0
                   && forall ch: nat | ch < nch :: Channel(input, n, build(orig, newf), r.value.0[..], r.value.1, ch)
  {
    if n == 0 || srIn == 0 || srOut == 0 || nch == 0 { return None; }
    if srIn == srOut {
      var copy := new real[|input|](i requires 0 <= i < |input| => input[i]);
      SameRate(n, srIn);
      return Some((copy, n));
    }
    var g := Gcd(srIn, srOut);
    PositiveDivisor(g, srIn);
    PositiveDivisor(g, srOut);
    var orig, newf := srIn / g, srOut / g;
    TargetReduced(n, orig, newf, g);
    var target := CeilDiv(srOut * n, srIn);
    var out := ResampleChannels(input, n, build(orig, newf), nch, target);
    r := Some((out, target));
  }

  /** One channel after the other, each into its own part of the output. */
  method ResampleChannels(input: seq<real>, n: nat, k: Kernel, nch: nat, target: nat) returns (out: array<real>)
    requires |input| == Scale(nch, n) && KernelOk(k) && target == CeilDiv(k.newf * n, k.orig)
    ensures fresh(out) && out.Length == Scale(nch, target)
    ensures forall ch: nat | ch < nch :: Channel(input, n, k, out[..], target, ch)
  {
    hide CeilDiv, Scale, Resampled, KernelOk, Whole, Channel;
    out := new real[Scale(nch, target)];
    for ch := 0 to nch
      invariant forall c: nat | c < ch :: Channel(input, n, k, out[..], target, c)
    {
      Slots(nch, n, ch);
      Slots(nch, target, ch);
      ghost var before := out[..];
      ApplyMono(input[Scale(ch, n)..Scale(ch, n) + n], k, out, Scale(ch, target), target);
      forall c: nat | c < ch ensures Channel(input, n, k, out[..], target, c) {
        Apart(c, ch, target);
        ChannelKept(input, n, k, before, out[..], target, c, Scale(ch, target));
      }
      ChannelWritten(input, n, k, before, out[..], target, ch);
    }
  }

  lemma ChannelKept(input: seq<real>, n: nat, k: Kernel, was: seq<real>, out: seq<real>, target: nat, c: nat, base: nat)
    requires Channel(input, n, k, was, target, c) && Scale(c, target) + target <= base <= |was| == |out|
    requires out[..base] == was[..base]
    ensures Channel(input, n, k, out, target, c)
  {
    hide Scale, KernelOk, Whole;
    SliceOfSlice(out, 0, base, Scale(c, target), Scale(c, target) + target);
    SliceOfSlice(was, 0, base, Scale(c, target), Scale(c, target) + target);
    assert out[0..base] == out[..base] && was[0..base] == was[..base];
  }

  lemma ChannelWritten(input: seq<real>, n: nat, k: Kernel, was: seq<real>, out: seq<real>, target: nat, ch: nat)
    requires KernelOk(k) && Scale(ch, n) + n <= |input| && Scale(ch, target) + target <= |was|
    requires out == was[..Scale(ch, target)] + Whole(input[Scale(ch, n)..Scale(ch, n) + n], k, target)
                    + was[Scale(ch, target) + target..]
    ensures Channel(input, n, k, out, target, ch)
  {
    hide Scale, KernelOk, Whole;
  }

  /** Channel ch of the output is channel ch of the input, resampled. */
  ghost predicate Channel(input: seq<real>, n: nat, k: Kernel, out: seq<real>, target: nat, ch: nat) {
    && KernelOk(k) && Scale(ch, n) + n <= |input| && Scale(ch, target) + target <= |out|
    && out[Scale(ch, target)..Scale(ch, target) + target]
       == Whole(input[Scale(ch, n)..Scale(ch, n) + n], k, target)
  }

  /** Sample t of channel ch of the output comes from channel ch of the input. */
  lemma ChannelSpelled(input: seq<real>, n: nat, k: Kernel, out: seq<real>, target: nat, ch: nat, t: nat)
    requires Channel(input, n, k, out, target, ch) && t < target
    ensures 0 <= ch * n && ch * n + n <= |input| && 0 <= ch * target + t < |out|
    ensures out[ch * target + t] == Resampled(input[ch * n..ch * n + n], k, t)
  {
    hide Resampled;
    var a := Scale(ch, target);
    assert out[a..a + target][t] == out[a + t];
  }

  lemma Slots(nch: nat, n: nat, ch: nat)
    requires ch < nch
    ensures Scale(ch, n) + n <= Scale(nch, n)
  {
    Bits.OneMore(ch, n);
    Bits.Monotone(ch + 1, nch, n);
  }

  lemma Apart(c: nat, ch: nat, n: nat)
    requires c < ch
    ensures Scale(c, n) + n <= Scale(ch, n)
  {
    Slots(ch, n, c);
  }

  lemma SameRate(n: nat, sr: nat)
    requires sr > 0
    ensures Target(n, sr, sr) == n
  {
    CeilDivLeast(sr * n, sr, n);
    if n > 0 {
      CeilDivLeast(sr * n, sr, n - 1);
      Bits.OneMore(n - 1, sr);
    }
  }
}
