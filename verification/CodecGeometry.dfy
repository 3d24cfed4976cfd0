/** Where the windows of the codec's stages come from: padding and trimming of its convolutions,
    the sliding attention mask, and what they add up to for the whole decoder
    (src/causal-trans-conv.h, src/tokenizer-transformer.h, src/convnext-block.h,
    src/dac-decoder-v2.h). */
module CodecGeometry {
  import opened CodecLocality
  import opened Multiples

  // ----- causal convolution ---------------------------------------------------------------

  /** Division of integers as C++ does it: towards zero. */
  function CDiv(a: int, b: nat): int
    requires b >= 1
  {
    if a >= 0 then a / b else -((-a) / b)
  }

  function KernelEff(k: nat, d: nat): nat
    requires k >= 1
  {
    Scale(k - 1, d) + 1
  }

  /** Zeros (or copies) added in front. */
  function PadLeft(k: nat, d: nat, s: nat): int
    requires k >= 1
  {
    KernelEff(k, d) - s
  }

  /** Zeros (or copies) added behind, so that the last stride is complete. */
  function PadRight(T: nat, k: nat, d: nat, s: nat): int
    requires k >= 1 && s >= 1
  {
    var frames := CDiv(T + PadLeft(k, d, s) - KernelEff(k, d) + s - 1, s) + 1;
    var ideal := (frames - 1) * s + KernelEff(k, d) - PadLeft(k, d, s);
    if ideal - T < 0 then 0 else ideal - T
  }

  /** Output length of a valid convolution over the padded input. */
  function ConvLength(T: nat, k: nat, d: nat, s: nat): int
    requires k >= 1 && s >= 1
  {
    CDiv(PadLeft(k, d, s) + T + PadRight(T, k, d, s) - KernelEff(k, d), s) + 1
  }

  lemma FloorBetween(x: nat, q: nat, r: nat)
    requires r >= 1 && q * r <= x < q * r + r
    ensures x / r == q
  {
    BlockOf(x, q, r);
  }

  /** The right padding completes the last stride, and the output has one element per started
      stride. */
  lemma ConvPadding(T: nat, k: nat, d: nat, s: nat)
    requires T >= 1 && k >= 1 && s >= 1
    ensures PadRight(T, k, d, s) == Scale(CeilDiv(T, s), s) - T
    ensures ConvLength(T, k, d, s) == CeilDiv(T, s)
  {
    hide KernelEff;
    var n := CeilDiv(T, s);
    CeilAsFloor(T, s);
    assert n * s >= T by { CeilCovers(T, s); }
    assert (n - 1) * s + s == n * s;
    assert ConvLength(T, k, d, s) == CDiv((n - 1) * s, s) + 1;
    ExactDiv(n - 1, s);
  }

  lemma CeilAsFloor(T: nat, s: nat)
    requires T >= 1 && s >= 1
    ensures CeilDiv(T, s) == (T - 1) / s + 1
  {
    assert (T - 1 + s) / s == (T - 1) / s + 1 by {
      var q := (T - 1) / s;
      assert q * s <= T - 1 < q * s + s;
      assert (q + 1) * s == q * s + s;
      FloorBetween(T - 1 + s, q + 1, s);
    }
  }

  lemma ExactDiv(n: nat, s: nat)
    requires s >= 1
    ensures n * s / s == n
  {
    FloorBetween(n * s, n, s);
  }

  /** The right padding is not (T - 1) % s, as the comment above the function has it, except when
      the last stride is exactly half full. */
  lemma CommentedPadding(T: nat, k: nat, d: nat, s: nat)
    requires T >= 1 && k >= 1 && s >= 1
    ensures PadRight(T, k, d, s) == (T - 1) % s <==> 2 * ((T - 1) % s) + 1 == s
  {
    ConvPadding(T, k, d, s);
    CeilAsFloor(T, s);
    var q := (T - 1) / s;
    assert Scale(q + 1, s) == q * s + s;
    assert T - 1 == q * s + (T - 1) % s;
  }

  /** With stride 1, tap j of output t reads input t - (k - 1 - j) d, or padding: never ahead of t,
      and never further back than the stage's window. */
  lemma ConvTapInWindow(t: nat, k: nat, d: nat, j: nat)
    requires k >= 1 && j < k
    ensures var input := t + Scale(j, d) - PadLeft(k, d, 1); t - ConvGeometry(k, d).left <= input <= t
  {
    ScaleLe(j, k - 1, d);
  }

  function ConvGeometry(k: nat, d: nat): Geometry
    requires k >= 1
  {
    Geometry(Scale(k - 1, d), 1)
  }

  // ----- transposed convolution -----------------------------------------------------------

  function TransConvGeometry(k: nat, s: nat): Geometry
    requires s >= 1 && k >= s
  {
    Geometry(CeilDiv(k, s) - 1, s)
  }

  /** Right-trimming kernel - stride of the (T - 1) s + k raw outputs leaves s per input. */
  lemma TransConvLength(T: nat, k: nat, s: nat)
    requires T >= 1 && k >= s >= 1
    ensures Scale(T - 1, s) + k - (k - s) == Scale(T, s)
  {
    ScaleAdd(T - 1, 1, s);
    ScaleOne(s);
  }

  /** Input u contributes to output i of block t only if it lies in the stage's window, and the
      oldest input of the window does contribute to the first output of the block. */
  lemma TransConvTapInWindow(t: nat, i: nat, u: nat, k: nat, s: nat)
    requires k >= s >= 1 && Scale(t, s) <= i < Scale(t + 1, s)
    ensures Scale(u, s) <= i < Scale(u, s) + k ==> t - TransConvGeometry(k, s).left <= u <= t
    ensures u + TransConvGeometry(k, s).left == t && i == Scale(t, s) ==> Scale(u, s) <= i < Scale(u, s) + k
  {
    var left := TransConvGeometry(k, s).left;
    ScaleAdd(t, 1, s);
    ScaleOne(s);
    CeilAsFloor(k, s);
    assert Scale(left, s) <= k - 1 < Scale(left, s) + s;
    if u > t { ScaleLe(t + 1, u, s); }
    if u + left < t {
      ScaleLe(u + left + 1, t, s);
      ScaleAdd(u, left + 1, s);
      ScaleAdd(left, 1, s);
    }
    if u + left == t { ScaleAdd(u, left, s); }
  }

  // ----- sliding attention ----------------------------------------------------------------

  datatype MaskValue = Attend | NegInf

  predicate InSlidingWindow(q: int, k: int, window: int) { k <= q && q - k < window }

  function AttentionGeometry(window: nat): Geometry
    requires window >= 1
  {
    Geometry(window - 1, 1)
  }

  /** Entry (q, k) of the row-major T by T mask is right. */
  ghost predicate Entry(dst: seq<MaskValue>, T: nat, q: nat, k: nat, window: int) {
    Scale(q, T) + k < |dst| && (dst[Scale(q, T) + k] == Attend <==> InSlidingWindow(q, k, window))
  }

  /** Row q of the mask. */
  method FillRow(dst: array<MaskValue>, row: nat, q: nat, window: int)
    requires row + q < dst.Length && forall i | row <= i <= row + q :: dst[i] == NegInf
    modifies dst
    ensures forall i | 0 <= i < dst.Length && !(row <= i <= row + q) :: dst[i] == old(dst[i])
    ensures forall i | row <= i <= row + q :: dst[i] == Attend <==> InSlidingWindow(q, i - row, window)
  {
    var kMin := if q - window + 1 < 0 then 0 else q - window + 1;
    for k := kMin to (if kMin <= q then q + 1 else kMin)
      invariant forall i | 0 <= i < dst.Length && !(row <= i <= row + q) :: dst[i] == old(dst[i])
      invariant forall i | row <= i <= row + q :: dst[i] == Attend <==> kMin <= i - row < k
    {
      dst[row + k] := Attend;
    }
  }

  /** Fills the row-major T by T mask. */
  method BuildCausalSlidingMask(T: nat, window: int) returns (dst: array<MaskValue>)
    ensures fresh(dst) && dst.Length == Scale(T, T)
    ensures forall q: nat, k: nat | q < T && k < T :: Entry(dst[..], T, q, k, window)
  {
    hide Scale;
    dst := new MaskValue[Scale(T, T)](_ => NegInf);
    ScaleOne(T);
    for q := 0 to T
      invariant Scale(q, T) <= dst.Length
      invariant forall i | Scale(q, T) <= i < dst.Length :: dst[i] == NegInf
      invariant forall p: nat, k: nat | p < q && k < T :: Entry(dst[..], T, p, k, window)
    {
      ScaleAdd(q, 1, T);
      ScaleLe(q + 1, T, T);
      ghost var was := dst[..];
      FillRow(dst, Scale(q, T), q, window);
      forall p: nat, k: nat | p < q + 1 && k < T ensures Entry(dst[..], T, p, k, window) {
        if p < q {
          assert Entry(was, T, p, k, window);
          ScaleLe(p + 1, q, T);
          ScaleAdd(p, 1, T);
        }
      }
    }
  }

  /** The keys the mask lets query q attend to are exactly the stage's window. */
  lemma MaskIsWindow(q: nat, k: nat, window: nat)
    requires window >= 1
    ensures InSlidingWindow(q, k, window) <==> q - AttentionGeometry(window).left <= k <= q
  {
  }

  // ----- the whole decoder ----------------------------------------------------------------

  /** A DAC block: upsampling by s, then three residual units of kernel 7 and dilations 1, 3, 9. */
  function DacBlock(s: nat): seq<Geometry>
    requires s >= 1
  {
    [TransConvGeometry(2 * s, s), ConvGeometry(7, 1), ConvGeometry(7, 3), ConvGeometry(7, 9)]
  }

  function Layers(n: nat, window: nat): seq<Geometry>
    requires window >= 1
  {
    if n == 0 then [] else [AttentionGeometry(window)] + Layers(n - 1, window)
  }

  /** Pre-convolution, n transformer layers, two upsampling blocks, and the DAC decoder. */
  function Decoder(n: nat, window: nat): seq<Geometry>
    requires window >= 1
  {
    [ConvGeometry(3, 1)] + (Layers(n, window) + Tail())
  }

  function Upsampler(): seq<Geometry> {
    [TransConvGeometry(2, 2), ConvGeometry(7, 1), TransConvGeometry(2, 2), ConvGeometry(7, 1)]
  }

  function Tail(): seq<Geometry> {
    Upsampler() + ([ConvGeometry(7, 1)] + (DacBlock(8) + (DacBlock(5) + (DacBlock(4) + (DacBlock(3)
    + [ConvGeometry(7, 1)])))))
  }

  /** Reach of a chain of geometries. */
  function GeometryReach(gs: seq<Geometry>): nat
    requires Rated(gs)
  {
    if gs == [] then 0 else gs[0].left + CeilDiv(GeometryReach(gs[1..]), gs[0].ratio)
  }

  function GeometryHop(gs: seq<Geometry>): nat {
    if gs == [] then 1 else Scale(gs[0].ratio, GeometryHop(gs[1..]))
  }

  predicate OfGeometry<V>(stages: seq<Stage<V>>, gs: seq<Geometry>) {
    && |stages| == |gs|
    && forall i | 0 <= i < |gs| :: stages[i].left == gs[i].left && stages[i].ratio == gs[i].ratio
  }

  lemma {:induction false} GeometryDetermines<V>(gs: seq<Geometry>, stages: seq<Stage<V>>)
    requires Rated(gs) && OfGeometry(stages, gs)
    ensures Reach(stages) == GeometryReach(gs) && Hop(stages) == GeometryHop(gs)
  {
    if gs != [] { GeometryDetermines(gs[1..], stages[1..]); }
  }

  lemma Prepend(g: Geometry, rest: seq<Geometry>)
    requires g.ratio >= 1 && Rated(rest)
    ensures Rated([g] + rest)
    ensures GeometryReach([g] + rest) == g.left + CeilDiv(GeometryReach(rest), g.ratio)
    ensures GeometryHop([g] + rest) == Scale(g.ratio, GeometryHop(rest))
  {
    assert ([g] + rest)[1..] == rest;
  }

  lemma PrependDacBlock(s: nat, rest: seq<Geometry>)
    requires s >= 1 && Rated(rest)
    ensures Rated(DacBlock(s) + rest)
    ensures GeometryReach(DacBlock(s) + rest) == CeilDiv(2 * s, s) - 1 + CeilDiv(78 + GeometryReach(rest), s)
    ensures GeometryHop(DacBlock(s) + rest) == Scale(s, GeometryHop(rest))
  {
    var r1, r2, r3 := [ConvGeometry(7, 9)] + rest, [ConvGeometry(7, 3)] + ([ConvGeometry(7, 9)] + rest),
      [ConvGeometry(7, 1)] + ([ConvGeometry(7, 3)] + ([ConvGeometry(7, 9)] + rest));
    Prepend(ConvGeometry(7, 9), rest);
    Prepend(ConvGeometry(7, 3), r1);
    Prepend(ConvGeometry(7, 1), r2);
    Prepend(TransConvGeometry(2 * s, s), r3);
    ScaleOne(GeometryHop(rest));
    assert DacBlock(s) + rest == [TransConvGeometry(2 * s, s)] + r3;
  }

  lemma TailReach()
    ensures Rated(Tail()) && GeometryReach(Tail()) == 10 && GeometryHop(Tail()) == 1920
  {
    hide Rated, GeometryReach, GeometryHop, DacBlock;
    var last := [ConvGeometry(7, 1)];
    assert last + [] == last;
    Nothing();
    Prepend(ConvGeometry(7, 1), []);
    PrependDacBlock(3, last);
    PrependDacBlock(4, DacBlock(3) + last);
    PrependDacBlock(5, DacBlock(4) + (DacBlock(3) + last));
    var dac := DacBlock(8) + (DacBlock(5) + (DacBlock(4) + (DacBlock(3) + last)));
    PrependDacBlock(8, DacBlock(5) + (DacBlock(4) + (DacBlock(3) + last)));
    assert GeometryReach(dac) == 14 && GeometryHop(dac) == 480;
    Prepend(ConvGeometry(7, 1), dac);
    PrependUpsampler([ConvGeometry(7, 1)] + dac);
  }

  lemma Nothing()
    ensures Rated([]) && GeometryReach([]) == 0 && GeometryHop([]) == 1
  {
  }

  lemma PrependUpsampler(rest: seq<Geometry>)
    requires Rated(rest) && GeometryReach(rest) == 20
    ensures Rated(Upsampler() + rest) && GeometryReach(Upsampler() + rest) == 10
    ensures GeometryHop(Upsampler() + rest) == 4 * GeometryHop(rest)
  {
    hide Rated, GeometryReach, GeometryHop;
    var c := ConvGeometry(7, 1);
    var u := TransConvGeometry(2, 2);
    Prepend(c, rest);
    Prepend(u, [c] + rest);
    Prepend(c, [u] + ([c] + rest));
    Prepend(u, [c] + ([u] + ([c] + rest)));
    assert Upsampler() + rest == [u] + ([c] + ([u] + ([c] + rest)));
  }

  lemma {:induction false} LayersReach(n: nat, window: nat, rest: seq<Geometry>)
    requires window >= 1 && Rated(rest)
    ensures Rated(Layers(n, window) + rest)
    ensures GeometryReach(Layers(n, window) + rest) == Scale(n, window - 1) + GeometryReach(rest)
    ensures GeometryHop(Layers(n, window) + rest) == GeometryHop(rest)
  {
    hide Scale, Rated, GeometryReach, GeometryHop;
    ScaleOne(window - 1);
    ScaleOne(GeometryHop(rest));
    if n == 0 {
      assert Layers(0, window) + rest == rest;
    } else {
      LayersReach(n - 1, window, rest);
      Prepend(AttentionGeometry(window), Layers(n - 1, window) + rest);
      assert Layers(n, window) + rest == [AttentionGeometry(window)] + (Layers(n - 1, window) + rest);
      ScaleAdd(n - 1, 1, window - 1);
      CeilOne(GeometryReach(Layers(n - 1, window) + rest));
    }
  }

  lemma CeilOne(n: nat)
    ensures CeilDiv(n, 1) == n
  {
  }

  /** The decoder makes 1920 samples a frame, and looks back window - 1 frames per attention layer
      plus 12. */
  lemma DecoderReach(n: nat, window: nat)
    requires window >= 1
    ensures Rated(Decoder(n, window)) && GeometryHop(Decoder(n, window)) == 1920
    ensures GeometryReach(Decoder(n, window)) == Scale(n, window - 1) + 12
  {
    hide Rated, GeometryReach, GeometryHop, Tail, Layers, CeilDiv;
    TailReach();
    LayersReach(n, window, Tail());
    Prepend(ConvGeometry(3, 1), Layers(n, window) + Tail());
    CeilOne(GeometryReach(Layers(n, window) + Tail()));
    ScaleOne(GeometryHop(Tail()));
  }

  /** As shipped, with 8 layers of window 72: 580 frames, that is 46.4 seconds, where the default
      contexts are 25 frames and, for a server on a GPU, 75. */
  lemma ShippedDecoderReach()
    ensures Rated(Decoder(8, 72)) && GeometryReach(Decoder(8, 72)) == 580
    ensures 25 < 75 < GeometryReach(Decoder(8, 72))
  {
    DecoderReach(8, 72);
  }

  // ----- transposed-convolution weights ---------------------------------------------------

  /** Weight j of input channel ic stands in row j of the permuted matrix. */
  predicate Moved(src: seq<real>, dst: seq<real>, IC: nat, rows: nat, ic: nat, j: nat) {
    Cell(IC, j, ic) < |dst| && Cell(rows, ic, j) < |src| && dst[Cell(IC, j, ic)] == src[Cell(rows, ic, j)]
  }

  /** The permutation loop of qwen_load_ctw_f32: weight (ic, oc, k), stored row-major over
      (IC, OC, K), moves to row oc * K + k, column ic of a matrix with rows of IC. Every slot of the
      result is written, each by one weight. */
  method PermuteWeights(src: seq<real>, IC: nat, OC: nat, K: nat) returns (dst: seq<real>)
    requires |src| == Scale(IC, Scale(OC, K))
    ensures |dst| == Scale(Scale(OC, K), IC)
    ensures forall ic, j | 0 <= ic < IC && 0 <= j < Scale(OC, K) :: Moved(src, dst, IC, Scale(OC, K), ic, j)
  {
    hide Scale, Cell;
    var rows := Scale(OC, K);
    dst := seq(Scale(rows, IC), _ => 0.0);
    for ic := 0 to IC
      invariant |dst| == Scale(rows, IC)
      invariant forall c, j | 0 <= c < ic && 0 <= j < rows :: Moved(src, dst, IC, rows, c, j)
    {
      FirstRow(K);
      for oc := 0 to OC
        invariant |dst| == Scale(rows, IC) && Scale(oc, K) <= rows
        invariant forall c, j | 0 <= c < IC && 0 <= j < rows && (c < ic || (c == ic && j < Scale(oc, K))) ::
                    Moved(src, dst, IC, rows, c, j)
      {
        NextRow(oc, OC, K);
        for k := 0 to K
          invariant |dst| == Scale(rows, IC)
          invariant forall c, j | 0 <= c < IC && 0 <= j < rows && (c < ic || (c == ic && j < Scale(oc, K) + k)) ::
                      Moved(src, dst, IC, rows, c, j)
        {
          var row := Scale(oc, K) + k;
          CellsDiffer(rows, IC, ic, row, ic, row);
          CellsDiffer(IC, rows, row, ic, row, ic);
          ghost var was := dst;
          dst := dst[Cell(IC, row, ic) := src[Cell(rows, ic, row)]];
          forall c, j | 0 <= c < IC && 0 <= j < rows && (c < ic || (c == ic && j < row + 1))
            ensures Moved(src, dst, IC, rows, c, j) {
            CellsDiffer(IC, rows, j, c, row, ic);
            assert (c == ic && j == row) || Moved(src, was, IC, rows, c, j);
          }
        }
      }
    }
  }

  lemma NextRow(oc: nat, OC: nat, K: nat)
    requires oc < OC
    ensures Scale(oc + 1, K) == Scale(oc, K) + K <= Scale(OC, K)
  {
    ScaleAdd(oc, 1, K);
    ScaleOne(K);
    ScaleLe(oc + 1, OC, K);
  }

  lemma FirstRow(K: nat)
    ensures Scale(0, K) == 0
  {
    ScaleOne(K);
  }
}
