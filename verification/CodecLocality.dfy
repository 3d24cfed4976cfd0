/** Receptive fields of the codec decoder. The decoder is a chain of causal stages, each looking
    back over a bounded window of its own input; how far the chain reaches back in frames decides
    whether decoding a slice with left context gives the samples of the whole
    (src/pipeline-codec.cpp, src/causal-trans-conv.h, src/tokenizer-transformer.h). */
module CodecLocality {
  import opened Multiples

  /** One causal stage: for every input position it computes `ratio` outputs from that input and
      the `left` inputs before it, or fewer at the start of the sequence. */
  datatype Stage<!V> = Stage(left: nat, ratio: nat, f: seq<V> -> seq<V>)

  ghost predicate StageOk<V(!new)>(s: Stage<V>) {
    s.ratio >= 1 && forall w :: |s.f(w)| == s.ratio
  }

  function Window<V>(xs: seq<V>, t: nat, left: nat): (w: seq<V>)
    requires t < |xs|
    ensures |w| == if t >= left then left + 1 else t + 1
  {
    xs[(if t >= left then t - left else 0)..t + 1]
  }

  ghost function Apply<V(!new)>(s: Stage<V>, xs: seq<V>): (r: seq<V>)
    requires StageOk(s)
    ensures |r| == Scale(|xs|, s.ratio)
  {
    ScaleOne(s.ratio);
    if xs == [] then []
    else
      ScaleAdd(|xs| - 1, 1, s.ratio);
      Apply(s, xs[..|xs| - 1]) + s.f(Window(xs, |xs| - 1, s.left))
  }

  ghost predicate StagesOk<V(!new)>(stages: seq<Stage<V>>) {
    forall i | 0 <= i < |stages| :: StageOk(stages[i])
  }

  /** Samples per frame. */
  function Hop<V>(stages: seq<Stage<V>>): nat {
    if stages == [] then 1 else Scale(stages[0].ratio, Hop(stages[1..]))
  }

  ghost function Run<V(!new)>(stages: seq<Stage<V>>, xs: seq<V>): (r: seq<V>)
    requires StagesOk(stages)
    ensures |r| == Scale(|xs|, Hop(stages))
    decreases |stages|
  {
    ScaleOne(|xs|);
    if stages == [] then xs
    else
      ScaleAssoc(|xs|, stages[0].ratio, Hop(stages[1..]));
      Run(stages[1..], Apply(stages[0], xs))
  }

  /** How many frames back the chain looks: its first stage's window, and whatever the rest of the
      chain needs, converted to the first stage's input rate. */
  function Reach<V>(stages: seq<Stage<V>>): nat
    requires forall i | 0 <= i < |stages| :: stages[i].ratio >= 1
  {
    if stages == [] then 0
    else stages[0].left + CeilDiv(Reach(stages[1..]), stages[0].ratio)
  }

  function Last<V>(xs: seq<V>, n: nat): seq<V>
    requires n <= |xs|
  {
    xs[|xs| - n..]
  }

  // ----- one stage ------------------------------------------------------------------------

  lemma {:induction false} ApplyPrefix<V(!new)>(s: Stage<V>, xs: seq<V>, k: nat)
    requires StageOk(s) && k <= |xs|
    ensures Scale(k, s.ratio) <= |Apply(s, xs)|
    ensures Apply(s, xs)[..Scale(k, s.ratio)] == Apply(s, xs[..k])
  {
    hide Scale;
    ScaleLe(k, |xs|, s.ratio);
    if k == |xs| {
      assert xs[..k] == xs;
    } else {
      var ys := xs[..|xs| - 1];
      ApplyPrefix(s, ys, k);
      assert ys[..k] == xs[..k];
    }
  }

  lemma WindowOfSuffix<V>(xs: seq<V>, left: nat, n: nat)
    requires left < n <= |xs|
    ensures Window(xs, |xs| - 1, left) == Last(xs, n)[n - 1 - left..]
  {
  }

  lemma LastNone<V>(xs: seq<V>)
    ensures Last(xs, 0) == []
  {
  }

  lemma LastDrops<V>(xs: seq<V>, n: nat)
    requires 1 <= n <= |xs|
    ensures Last(xs[..|xs| - 1], n - 1) == Last(xs, n)[..n - 1]
  {
  }

  lemma SuffixSnoc<V>(a: seq<V>, b: seq<V>, t: seq<V>, m: nat)
    requires m <= |a| && m <= |b| && Last(a, m) == Last(b, m)
    ensures Last(a + t, m + |t|) == Last(b + t, m + |t|)
  {
    assert Last(a + t, m + |t|) == Last(a, m) + t;
    assert Last(b + t, m + |t|) == Last(b, m) + t;
  }

  /** Two inputs with the same last left + m elements: the outputs agree on the last m blocks. */
  lemma {:induction false} ApplySuffix<V(!new)>(s: Stage<V>, xs: seq<V>, ys: seq<V>, m: nat)
    requires StageOk(s) && s.left + m <= |xs| && s.left + m <= |ys|
    requires Last(xs, s.left + m) == Last(ys, s.left + m)
    ensures Scale(m, s.ratio) <= |Apply(s, xs)| && Scale(m, s.ratio) <= |Apply(s, ys)|
    ensures Last(Apply(s, xs), Scale(m, s.ratio)) == Last(Apply(s, ys), Scale(m, s.ratio))
    decreases m
  {
    hide Scale, Window, Last;
    ScaleLe(m, |xs|, s.ratio);
    ScaleLe(m, |ys|, s.ratio);
    ScaleOne(s.ratio);
    if m > 0 {
      var n := s.left + m;
      var xs', ys' := xs[..|xs| - 1], ys[..|ys| - 1];
      LastDrops(xs, n);
      LastDrops(ys, n);
      ApplySuffix(s, xs', ys', m - 1);
      WindowOfSuffix(xs, s.left, n);
      WindowOfSuffix(ys, s.left, n);
      ScaleAdd(m - 1, 1, s.ratio);
      SuffixSnoc(Apply(s, xs'), Apply(s, ys'), s.f(Window(xs, |xs| - 1, s.left)), Scale(m - 1, s.ratio));
    } else {
      LastNone(Apply(s, xs));
      LastNone(Apply(s, ys));
    }
  }

  // ----- the chain ------------------------------------------------------------------------

  lemma {:induction false} RunPrefix<V(!new)>(stages: seq<Stage<V>>, xs: seq<V>, k: nat)
    requires StagesOk(stages) && k <= |xs|
    ensures Scale(k, Hop(stages)) <= |Run(stages, xs)|
    ensures Run(stages, xs)[..Scale(k, Hop(stages))] == Run(stages, xs[..k])
    decreases |stages|
  {
    hide Scale, StageOk, Apply;
    ScaleLe(k, |xs|, Hop(stages));
    if stages == [] {
      ScaleOne(k);
    } else {
      var s, rest := stages[0], stages[1..];
      assert StageOk(s);
      ApplyPrefix(s, xs, k);
      RunPrefix(rest, Apply(s, xs), Scale(k, s.ratio));
      ScaleAssoc(k, s.ratio, Hop(rest));
    }
  }

  lemma CeilCovers(need: nat, rate: nat)
    requires rate >= 1
    ensures Scale(CeilDiv(need, rate), rate) >= need
  {
  }

  lemma LastOfLast<V>(xs: seq<V>, n: nat, k: nat)
    requires k <= n <= |xs|
    ensures Last(xs, k) == Last(Last(xs, n), k)
  {
  }

  /** Agreement on the last Reach + m frames gives agreement on the samples of the last m. */
  lemma {:induction false} RunSuffix<V(!new)>(stages: seq<Stage<V>>, xs: seq<V>, ys: seq<V>, n: nat, m: nat)
    requires StagesOk(stages) && n <= |xs| && n <= |ys| && Last(xs, n) == Last(ys, n)
    requires n >= Reach(stages) + m
    ensures Scale(m, Hop(stages)) <= |Run(stages, xs)| && Scale(m, Hop(stages)) <= |Run(stages, ys)|
    ensures Last(Run(stages, xs), Scale(m, Hop(stages))) == Last(Run(stages, ys), Scale(m, Hop(stages)))
    decreases |stages|
  {
    hide Scale, StageOk, Apply, CeilDiv;
    ScaleLe(m, |xs|, Hop(stages));
    ScaleLe(m, |ys|, Hop(stages));
    if stages == [] {
      ScaleOne(m);
      LastOfLast(xs, n, m);
      LastOfLast(ys, n, m);
    } else {
      var s, rest := stages[0], stages[1..];
      assert StageOk(s);
      StagesRated(stages);
      StagesRated(rest);
      var k := CeilDiv(Reach(rest), s.ratio) + m;
      LastOfLast(xs, n, s.left + k);
      LastOfLast(ys, n, s.left + k);
      ApplySuffix(s, xs, ys, k);
      ScaleAdd(CeilDiv(Reach(rest), s.ratio), m, s.ratio);
      CeilCovers(Reach(rest), s.ratio);
      RunSuffix(rest, Apply(s, xs), Apply(s, ys), Scale(k, s.ratio), Scale(m, s.ratio));
      ScaleAssoc(m, s.ratio, Hop(rest));
    }
  }

  lemma StagesRated<V(!new)>(stages: seq<Stage<V>>)
    requires StagesOk(stages)
    ensures forall i | 0 <= i < |stages| :: stages[i].ratio >= 1
  {
    forall i | 0 <= i < |stages| ensures stages[i].ratio >= 1 { assert StageOk(stages[i]); }
  }

  /** The samples frames [start, end) get when they are decoded with ctx frames of left context. */
  ghost function ChunkSamples<V(!new)>(stages: seq<Stage<V>>, xs: seq<V>, start: nat, end: nat, ctx: nat): seq<V>
    requires StagesOk(stages) && ctx <= start <= end <= |xs|
  {
    ScaleLe(ctx, end - (start - ctx), Hop(stages));
    Run(stages, xs[start - ctx..end])[Scale(ctx, Hop(stages))..]
  }

  /** The samples of frames [start, end) when everything is decoded at once. */
  ghost function WholeSamples<V(!new)>(stages: seq<Stage<V>>, xs: seq<V>, start: nat, end: nat): seq<V>
    requires StagesOk(stages) && start <= end <= |xs|
  {
    ScaleLe(start, end, Hop(stages));
    ScaleLe(end, |xs|, Hop(stages));
    Run(stages, xs)[Scale(start, Hop(stages))..Scale(end, Hop(stages))]
  }

  /** With enough left context, or with all there is, a slice decodes to its part of the whole. */
  lemma ChunkExact<V(!new)>(stages: seq<Stage<V>>, xs: seq<V>, start: nat, end: nat, ctx: nat)
    requires StagesOk(stages) && ctx <= start <= end <= |xs|
    requires ctx == start || ctx >= Reach(stages)
    ensures ChunkSamples(stages, xs, start, end, ctx) == WholeSamples(stages, xs, start, end)
  {
    hide Scale, StagesOk, Run, Hop;
    var h, m, n := Hop(stages), end - start, ctx + (end - start);
    var whole, slice := xs[..end], xs[start - ctx..end];
    RunPrefix(stages, xs, end);
    ScaleAdd(start, m, h);
    ScaleAdd(ctx, m, h);
    assert |whole| == start + m && |slice| == ctx + m;
    if ctx == start {
      assert slice == whole;
    } else {
      assert Last(whole, n) == slice == Last(slice, n);
      RunSuffix(stages, whole, slice, n, m);
    }
  }

  // ----- the bound is tight ---------------------------------------------------------------

  /** The windows and rates of a chain, without what its stages compute. */
  datatype Geometry = Geometry(left: nat, ratio: nat)

  predicate Rated(gs: seq<Geometry>) { forall i | 0 <= i < |gs| :: gs[i].ratio >= 1 }

  function Repeat<V>(x: V, n: nat): seq<V> { seq(n, _ => x) }

  /** What a shift stage answers: the oldest element of its window. */
  function Oldest(w: seq<int>): int { if w == [] then 0 else w[0] }

  function ShiftStage(g: Geometry): Stage<int> {
    Stage(g.left, g.ratio, (w: seq<int>) => Repeat(Oldest(w), g.ratio))
  }

  /** A chain of the given geometry whose stages all shift. */
  function Shifts(gs: seq<Geometry>): (r: seq<Stage<int>>)
    requires Rated(gs)
    ensures |r| == |gs| && forall i | 0 <= i < |r| :: r[i] == ShiftStage(gs[i])
  {
    seq(|gs|, i requires 0 <= i < |gs| => ShiftStage(gs[i]))
  }

  lemma ShiftsOk(gs: seq<Geometry>)
    requires Rated(gs)
    ensures StagesOk(Shifts(gs))
    ensures gs != [] ==> Shifts(gs) == [ShiftStage(gs[0])] + Shifts(gs[1..]) && StageOk(ShiftStage(gs[0]))
  {
  }

  /** `left` steps back from position t, stopping at the start of the sequence. */
  function Back(t: nat, left: nat): nat { if t >= left then t - left else 0 }

  /** The input position output j of the chain comes from. */
  function Source(gs: seq<Geometry>, j: nat): nat
    requires Rated(gs)
  {
    if gs == [] then j else Back(FloorDiv(Source(gs[1..], j), gs[0].ratio), gs[0].left)
  }

  function FloorDiv(a: nat, b: nat): nat
    requires b >= 1
  {
    a / b
  }

  lemma BlockOf(j: nat, n: nat, r: nat)
    requires r >= 1 && Scale(n, r) <= j < Scale(n, r) + r
    ensures FloorDiv(j, r) == n
  {
    var d := j / r;
    if d > n { ScaleLe(n + 1, d, r); }
    if d < n { ScaleLe(d + 1, n, r); }
  }

  lemma BelowEnd(j: nat, n: nat, r: nat)
    requires r >= 1 && j < Scale(n, r)
    ensures FloorDiv(j, r) < n
  {
    var d := j / r;
    if d >= n { ScaleLe(n, d, r); }
  }

  lemma OldestOfWindow(xs: seq<int>, t: nat, left: nat)
    requires t < |xs|
    ensures Back(t, left) < |xs| && Oldest(Window(xs, t, left)) == xs[Back(t, left)]
  {
  }

  lemma {:induction false} ShiftApply(g: Geometry, xs: seq<int>, j: nat)
    requires g.ratio >= 1 && StageOk(ShiftStage(g)) && j < Scale(|xs|, g.ratio)
    ensures FloorDiv(j, g.ratio) < |xs|
    ensures Apply(ShiftStage(g), xs)[j] == xs[Back(FloorDiv(j, g.ratio), g.left)]
    decreases |xs|
  {
    hide Scale, FloorDiv, StageOk, Window, Oldest, Back;
    ScaleOne(g.ratio);
    assert xs != [];
    var n := |xs| - 1;
    BelowEnd(j, |xs|, g.ratio);
    ScaleAdd(n, 1, g.ratio);
    if j < Scale(n, g.ratio) {
      BelowEnd(j, n, g.ratio);
      ShiftApply(g, xs[..n], j);
      OldestOfWindow(xs, FloorDiv(j, g.ratio), g.left);
      OldestOfWindow(xs[..n], FloorDiv(j, g.ratio), g.left);
    } else {
      BlockOf(j, n, g.ratio);
      OldestOfWindow(xs, n, g.left);
    }
  }

  lemma {:induction false} ShiftRun(gs: seq<Geometry>, xs: seq<int>, j: nat)
    requires Rated(gs) && StagesOk(Shifts(gs)) && j < |Run(Shifts(gs), xs)|
    ensures Source(gs, j) < |xs| && Run(Shifts(gs), xs)[j] == xs[Source(gs, j)]
    decreases |gs|
  {
    hide Scale, FloorDiv, StageOk, Apply, ShiftStage;
    if gs == [] {
      ScaleOne(|xs|);
    } else {
      var g, rest := gs[0], gs[1..];
      ShiftsOk(gs);
      ShiftsOk(rest);
      ShiftParts(g);
      assert Shifts(gs)[1..] == Shifts(rest) && Shifts(gs)[0] == ShiftStage(g);
      ShiftRun(rest, Apply(ShiftStage(g), xs), j);
      ShiftApply(g, xs, Source(rest, j));
    }
  }

  lemma ShiftParts(g: Geometry)
    ensures ShiftStage(g).left == g.left && ShiftStage(g).ratio == g.ratio
  {
  }

  /** The first sample of a frame comes from Reach frames earlier, or from the first frame. */
  lemma {:induction false} SourceOfFrame(gs: seq<Geometry>, t: nat)
    requires Rated(gs)
    ensures Source(gs, Scale(t, Hop(Shifts(gs)))) == Back(t, Reach(Shifts(gs)))
    decreases |gs|
  {
    hide Scale, FloorDiv, CeilDiv, ShiftStage;
    if gs == [] {
      ScaleOne(t);
    } else {
      var g, rest := gs[0], gs[1..];
      ShiftsOk(gs);
      ShiftParts(g);
      assert Shifts(gs)[1..] == Shifts(rest) && Shifts(gs)[0] == ShiftStage(g);
      ScaleAssoc(t, g.ratio, Hop(Shifts(rest)));
      SourceOfFrame(rest, Scale(t, g.ratio));
      FloorOfDifference(t, Reach(Shifts(rest)), g.ratio);
    }
  }

  lemma FloorOfDifference(a: nat, b: nat, r: nat)
    requires r >= 1
    ensures FloorDiv(Back(Scale(a, r), b), r) == Back(a, CeilDiv(b, r))
  {
    var c := CeilDiv(b, r);
    assert c * r - r < b <= c * r;
    if a >= c {
      assert Scale(a - c, r) + c * r == a * r;
      BlockOf(a * r - b, a - c, r);
    } else {
      ScaleLe(a + 1, c, r);
      assert Scale(0, r) == 0;
      BlockOf(Back(Scale(a, r), b), 0, r);
    }
  }

  /** All zero but for a one at position `at`. */
  function Impulse(n: nat, at: nat): (xs: seq<int>)
    ensures |xs| == n && forall t | 0 <= t < n :: xs[t] == if t == at then 1 else 0
  {
    seq(n, t => if t == at then 1 else 0)
  }

  /** A context short of the reach is never enough: for every geometry, every smaller context and
      every slice that is not decoded from the first frame on, the shift decoder of that geometry
      gives the slice other samples than the whole gives it. */
  lemma ReachIsTight(gs: seq<Geometry>, start: nat, end: nat, ctx: nat, n: nat)
    requires Rated(gs) && ctx < Reach(Shifts(gs)) && ctx < start < end <= n
    ensures StagesOk(Shifts(gs))
    ensures var xs := Impulse(n, start - ctx);
            ChunkSamples(Shifts(gs), xs, start, end, ctx) != WholeSamples(Shifts(gs), xs, start, end)
  {
    hide Scale, StagesOk, Run, Hop, Source, Reach, Shifts;
    var stages, xs := Shifts(gs), Impulse(n, start - ctx);
    ShiftsOk(gs);
    var h := Hop(stages);
    HopPositive(stages);
    var slice := xs[start - ctx..end];
    FrameInside(start, end, h);
    FrameInside(ctx, |slice|, h);
    ScaleLe(end, n, h);
    SourceOfFrame(gs, start);
    ShiftRun(gs, xs, Scale(start, h));
    SourceOfFrame(gs, ctx);
    ShiftRun(gs, slice, Scale(ctx, h));
    assert ChunkSamples(stages, xs, start, end, ctx)[0] == slice[0] == 1;
    assert WholeSamples(stages, xs, start, end)[0] == xs[Back(start, Reach(stages))] == 0;
  }

  lemma FrameInside(t: nat, n: nat, h: nat)
    requires t < n && h >= 1
    ensures Scale(t, h) < Scale(n, h)
  {
    ScaleAdd(t, 1, h);
    ScaleOne(h);
    ScaleLe(t + 1, n, h);
  }

  lemma {:induction false} HopPositive<V>(stages: seq<Stage<V>>)
    requires forall i | 0 <= i < |stages| :: stages[i].ratio >= 1
    ensures Hop(stages) >= 1
  {
    if stages != [] { HopPositive(stages[1..]); }
  }
}
