/** The code predictor of one frame: the legacy loop, which derives every step from the cache
    length (src/code-predictor-forward.h), and the executor, which replays a schedule frozen at
    load time (src/code-predictor-exec.h). */
module Predictor {
  import opened Seqs
  import opened Talker
  import opened Vectors

  /** Layers, input projection, one output head per acoustic codebook, embedding tables, and the
      sampler: logits and Philox subsequence to a code. */
  datatype Predictor = Predictor(
    model: Model, proj: Vec -> Vec, heads: seq<Vec -> Vec>,
    embeds: seq<int -> Vec>, talkerEmbed: int -> Vec, sample: (Vec, int) -> int)

  predicate Wired(p: Predictor) { |p.heads| >= 1 && |p.embeds| >= |p.heads| - 1 }

  // ----- the reference --------------------------------------------------------------------

  /** What the predictor has been fed once codes c0 .. are known: the talker's hidden state, c0
      through the talker's table, and each later code through its own table. */
  function Inputs(p: Predictor, hidden: Vec, codes: seq<int>): (r: seq<Vec>)
    requires Wired(p) && 1 <= |codes| <= |p.heads|
    ensures |r| == |codes| + 1
  {
    if |codes| == 1 then [p.proj(hidden), p.proj(p.talkerEmbed(codes[0]))]
    else
      var g := |codes| - 1;
      Inputs(p, hidden, codes[..g]) + [p.proj(p.embeds[g - 1](codes[g]))]
  }

  /** Code g + 1, from all codes before it: head g, subsequence base + 1 + g. */
  function NextCode(p: Predictor, hidden: Vec, codes: seq<int>, base: int): int
    requires Wired(p) && 1 <= |codes| <= |p.heads|
  {
    var g := |codes| - 1;
    var last := Hidden(p.model, Inputs(p, hidden, codes), |p.model.layers|, |codes|);
    p.sample(p.heads[g](last), base + 1 + g)
  }

  /** All codes of the frame, or None when a sample finds no candidate. */
  function Frame(p: Predictor, hidden: Vec, codes: seq<int>, base: int): (r: Option<seq<int>>)
    requires Wired(p) && 1 <= |codes| <= |p.heads| + 1
    ensures r.Some? ==> |r.value| == |p.heads| + 1 && codes <= r.value
    decreases |p.heads| + 1 - |codes|
  {
    if |codes| == |p.heads| + 1 then Some(codes)
    else
      var c := NextCode(p, hidden, codes, base);
      if c < 0 then None else Frame(p, hidden, codes + [c], base)
  }

  lemma FrameStep(p: Predictor, hidden: Vec, codes: seq<int>, base: int)
    requires Wired(p) && 1 <= |codes| <= |p.heads|
    ensures var c := NextCode(p, hidden, codes, base);
            Frame(p, hidden, codes, base) == if c < 0 then None else Frame(p, hidden, codes + [c], base)
  {
  }

  lemma InputsStep(p: Predictor, hidden: Vec, codes: seq<int>)
    requires Wired(p) && 2 <= |codes| <= |p.heads|
    ensures var g := |codes| - 1;
            Inputs(p, hidden, codes) == Inputs(p, hidden, codes[..g]) + [p.proj(p.embeds[g - 1](codes[g]))]
  {
  }

  /** Input i of a frame: the talker's state, then code 0 through the talker's table, then code j
      through table j - 1 of the predictor, all projected. */
  lemma {:induction false} InputsAt(p: Predictor, hidden: Vec, codes: seq<int>, i: nat)
    requires Wired(p) && 1 <= |codes| <= |p.heads| && i <= |codes|
    ensures Inputs(p, hidden, codes)[i]
         == p.proj(if i == 0 then hidden else if i == 1 then p.talkerEmbed(codes[0]) else p.embeds[i - 2](codes[i - 1]))
    decreases |codes|
  {
    var g := |codes| - 1;
    if g > 0 && i <= g { InputsAt(p, hidden, codes[..g], i); }
  }

  /** Code g + 1 of a frame answers head g at position g + 1 of the pass over the codes before it,
      sampled with subsequence base + 1 + g. */
  predicate CodeOk(p: Predictor, hidden: Vec, codes: seq<int>, base: int, g: nat)
    requires Wired(p) && g < |p.heads| && |codes| == |p.heads| + 1
  {
    && codes[g + 1] >= 0
    && codes[g + 1] == p.sample(p.heads[g](Hidden(p.model, Inputs(p, hidden, codes[..g + 1]), |p.model.layers|, g + 1)),
                                base + 1 + g)
  }

  lemma {:induction false} FrameFrom(p: Predictor, hidden: Vec, start: seq<int>, codes: seq<int>, base: int)
    requires Wired(p) && 1 <= |start| <= |codes| == |p.heads| + 1 && start <= codes
    ensures Frame(p, hidden, start, base) == Some(codes)
       <==> forall g | |start| - 1 <= g < |p.heads| :: CodeOk(p, hidden, codes, base, g)
    decreases |codes| - |start|
  {
    hide Hidden, Inputs;
    var g := |start| - 1;
    if g < |p.heads| {
      assert codes[..g + 1] == start;
      FrameStep(p, hidden, start, base);
      var c := NextCode(p, hidden, start, base);
      assert CodeOk(p, hidden, codes, base, g) <==> codes[g + 1] == c >= 0;
      if codes[g + 1] == c {
        assert start + [c] == codes[..g + 2];
        FrameFrom(p, hidden, start + [c], codes, base);
      }
    } else {
      assert start == codes;
    }
  }

  /** The frame is the one list of codes in which every code answers the pass before it; there is
      none exactly when some sample on the way finds no candidate. */
  lemma FrameExactly(p: Predictor, hidden: Vec, c0: int, codes: seq<int>, base: int)
    requires Wired(p) && |codes| == |p.heads| + 1
    ensures Frame(p, hidden, [c0], base) == Some(codes)
       <==> codes[0] == c0 && forall g | 0 <= g < |p.heads| :: CodeOk(p, hidden, codes, base, g)
  {
    hide Hidden, Inputs, Frame;
    FrameHead(p, hidden, c0, base);
    if codes[0] == c0 { FrameFrom(p, hidden, [c0], codes, base); }
  }

  /** One code of a frame, spelled out. */
  lemma FrameCode(p: Predictor, hidden: Vec, c0: int, codes: seq<int>, base: int, g: nat)
    requires Wired(p) && Frame(p, hidden, [c0], base) == Some(codes) && g < |p.heads|
    ensures |codes| == |p.heads| + 1 && codes[0] == c0
    ensures var xs := Inputs(p, hidden, codes[..g + 1]);
            codes[g + 1] == p.sample(p.heads[g](Hidden(p.model, xs, |p.model.layers|, g + 1)), base + 1 + g)
  {
    hide Hidden, Inputs, Frame;
    FrameExactly(p, hidden, c0, codes, base);
    assert CodeOk(p, hidden, codes, base, g);
  }

  lemma FrameHead(p: Predictor, hidden: Vec, c0: int, base: int)
    requires Wired(p)
    ensures var r := Frame(p, hidden, [c0], base); r.Some? ==> r.value[0] == c0
  {
    var r := Frame(p, hidden, [c0], base);
    if r.Some? { assert [c0] <= r.value; }
  }

  // ----- one pass -------------------------------------------------------------------------

  function Project(p: Predictor, batch: seq<Vec>): (r: seq<Vec>)
    ensures |r| == |batch| && forall i | 0 <= i < |r| :: r[i] == p.proj(batch[i])
  {
    seq(|batch|, i requires 0 <= i < |batch| => p.proj(batch[i]))
  }

  /** The part the two paths share: project, run the layers with the given positions and mask, read
      the last position through head g, move the write head. */
  method Pass(p: Predictor, kv: KvCache, batch: seq<Vec>, pos: seq<nat>, mask: seq<seq<bool>>, nPast: nat, g: nat,
              ghost past: seq<Vec>) returns (logits: Vec)
    requires |past| == nPast && batch != [] && nPast + |batch| <= kv.maxSeqLen && g < |p.heads|
    requires PositionsOk(pos, nPast, |batch|) && MaskOk(mask, nPast, |batch|)
    requires kv.Caches(p.model, past, nPast)
    modifies kv`rows, kv`curLen
    ensures kv.Live(p.model, past + Project(p, batch)) && KeepsBehind(old(kv.rows), kv.rows, |past| + |batch|)
    ensures logits == p.heads[g](Hidden(p.model, past + Project(p, batch), |p.model.layers|, nPast + |batch| - 1))
  {
    hide Hidden, RowsUpTo;
    var hs := RunLayers(p.model, kv, Project(p, batch), pos, mask, nPast, past);
    logits := p.heads[g](hs[|hs| - 1]);
    kv.curLen := nPast + |batch|;
  }

  /** code_predictor_run: positions and mask rebuilt for the call. */
  method LegacyRun(p: Predictor, kv: KvCache, batch: seq<Vec>, nPast: nat, g: nat, ghost past: seq<Vec>)
    returns (logits: Vec)
    requires |past| == nPast && batch != [] && nPast + |batch| <= kv.maxSeqLen && g < |p.heads|
    requires kv.Caches(p.model, past, nPast)
    modifies kv`rows, kv`curLen
    ensures kv.Live(p.model, past + Project(p, batch)) && KeepsBehind(old(kv.rows), kv.rows, |past| + |batch|)
    ensures logits == p.heads[g](Hidden(p.model, past + Project(p, batch), |p.model.layers|, nPast + |batch| - 1))
  {
    var pos := BuildPositions(nPast, |batch|);
    var mask := BuildMask(nPast, |batch|);
    logits := Pass(p, kv, batch, pos, mask, nPast, g, past);
  }

  lemma EmptyCache(p: Predictor, kv: KvCache)
    requires kv.Shape(|p.model.layers|)
    ensures kv.Caches(p.model, [], 0)
  {
  }

  lemma LiveCache(p: Predictor, kv: KvCache, xs: seq<Vec>)
    requires kv.Live(p.model, xs)
    ensures kv.Shape(|p.model.layers|) && kv.curLen == |xs| && kv.Caches(p.model, xs, |xs|)
  {
  }

  // ----- the legacy frame -----------------------------------------------------------------

  lemma LastInput(p: Predictor, hidden: Vec, codes: seq<int>)
    requires Wired(p) && 2 <= |codes| <= |p.heads|
    ensures var g := |codes| - 1;
            Inputs(p, hidden, codes) == Inputs(p, hidden, codes[..g]) + Project(p, [p.embeds[g - 1](codes[g])])
  {
    hide Inputs;
    var x := p.embeds[|codes| - 2](codes[|codes| - 1]);
    assert Project(p, [x]) == [p.proj(x)];
    InputsStep(p, hidden, codes);
  }

  lemma TwoInputs(p: Predictor, hidden: Vec, c0: int)
    requires Wired(p)
    ensures Inputs(p, hidden, [c0]) == [] + Project(p, [hidden, p.talkerEmbed(c0)])
  {
    assert Project(p, [hidden, p.talkerEmbed(c0)]) == [p.proj(hidden), p.proj(p.talkerEmbed(c0))];
  }

  lemma NextCodeIs(p: Predictor, hidden: Vec, codes: seq<int>, base: int, logits: Vec)
    requires Wired(p) && 1 <= |codes| <= |p.heads|
    requires logits == p.heads[|codes| - 1](Hidden(p.model, Inputs(p, hidden, codes), |p.model.layers|, |codes|))
    ensures p.sample(logits, base + |codes|) == NextCode(p, hidden, codes, base)
  {
    hide Hidden, Inputs;
  }

  /** The first pass of a frame: two inputs, head 0. */
  method FirstCode(p: Predictor, kv: KvCache, hidden: Vec, c0: int, base: int) returns (c: int)
    requires Wired(p) && kv.Caches(p.model, [], 0) && |p.heads| + 1 <= kv.maxSeqLen
    modifies kv`rows, kv`curLen
    ensures kv.Live(p.model, Inputs(p, hidden, [c0])) && KeepsBehind(old(kv.rows), kv.rows, 2)
    ensures c == NextCode(p, hidden, [c0], base)
  {
    hide *;
    WiredParts(p);
    TwoInputs(p, hidden, c0);
    var logits := LegacyRun(p, kv, [hidden, p.talkerEmbed(c0)], 0, 0, []);
    NextCodeIs(p, hidden, [c0], base, logits);
    c := p.sample(logits, base + 1);
  }

  /** A later pass: one input behind the cache, head g. */
  method LaterCode(p: Predictor, kv: KvCache, ghost hidden: Vec, codes: seq<int>, base: int, g: nat) returns (c: int)
    requires Wired(p) && 1 <= g == |codes| - 1 < |p.heads| && |p.heads| + 1 <= kv.maxSeqLen
    requires kv.Live(p.model, Inputs(p, hidden, codes[..g]))
    modifies kv`rows, kv`curLen
    ensures kv.Live(p.model, Inputs(p, hidden, codes)) && KeepsBehind(old(kv.rows), kv.rows, g + 2)
    ensures c == NextCode(p, hidden, codes, base)
  {
    hide *;
    WiredParts(p);
    LastInput(p, hidden, codes);
    LiveCache(p, kv, Inputs(p, hidden, codes[..g]));
    var logits := LegacyRun(p, kv, [p.embeds[g - 1](codes[g])], kv.curLen, g, Inputs(p, hidden, codes[..g]));
    NextCodeIs(p, hidden, codes, base, logits);
    c := p.sample(logits, base + 1 + g);
  }

  lemma WiredParts(p: Predictor)
    requires Wired(p)
    ensures |p.heads| >= 1 && |p.embeds| >= |p.heads| - 1
  {
  }

  /** code_predictor_step. The cache may hold anything before the call; rows behind the frame's are
      left alone. */
  method LegacyFrame(p: Predictor, kv: KvCache, hidden: Vec, c0: int, base: int) returns (codes: Option<seq<int>>)
    requires Wired(p) && kv.Shape(|p.model.layers|)
    modifies kv`rows, kv`curLen
    ensures kv.Shape(|p.model.layers|) && KeepsBehind(old(kv.rows), kv.rows, |p.heads| + 1)
    ensures codes == if |p.heads| + 1 > kv.maxSeqLen then None else Frame(p, hidden, [c0], base)
    ensures codes.Some? ==> kv.curLen == |p.heads| + 1
  {
    hide Hidden, Frame, NextCode, Inputs, RowsUpTo, KvCache.Caches, KvCache.Shape, KvCache.Live, KeepsBehind;
    KeepsSelf(kv.rows, |p.heads| + 1);
    if |p.heads| + 1 > kv.maxSeqLen { return None; }
    var out := [c0];
    kv.Reset();
    EmptyCache(p, kv);
    ghost var was := kv.rows;
    var c := FirstCode(p, kv, hidden, c0, base);
    FrameSoFar(p, kv, old(kv.rows), was, hidden, out);
    FrameStep(p, hidden, out, base);
    if c < 0 { return None; }
    out := out + [c];
    for g := 1 to |p.heads|
      invariant |out| == g + 1 && Frame(p, hidden, out, base) == Frame(p, hidden, [c0], base)
      invariant kv.Live(p.model, Inputs(p, hidden, out[..g])) && kv.curLen == g + 1 && kv.Shape(|p.model.layers|)
      invariant KeepsBehind(old(kv.rows), kv.rows, |p.heads| + 1)
    {
      was := kv.rows;
      c := LaterCode(p, kv, hidden, out, base, g);
      FrameSoFar(p, kv, old(kv.rows), was, hidden, out);
      FrameStep(p, hidden, out, base);
      if c < 0 { return None; }
      out := out + [c];
      assert out[..g + 1] == out[..|out| - 1];
    }
    FrameEnd(p, hidden, out, base);
    return Some(out);
  }

  /** What a pass leaves: a cache of the right shape, as long as its inputs, and the rows behind the
      frame as they were. */
  lemma FrameSoFar(p: Predictor, kv: KvCache, before: seq<seq<Kv>>, was: seq<seq<Kv>>, hidden: Vec, codes: seq<int>)
    requires Wired(p) && 1 <= |codes| <= |p.heads| && kv.Live(p.model, Inputs(p, hidden, codes))
    requires KeepsBehind(before, was, |p.heads| + 1) && KeepsBehind(was, kv.rows, |codes| + 1)
    ensures kv.Shape(|p.model.layers|) && kv.curLen == |codes| + 1 && KeepsBehind(before, kv.rows, |p.heads| + 1)
  {
    hide *;
    LiveCache(p, kv, Inputs(p, hidden, codes));
    KeepsMore(was, kv.rows, |codes| + 1, |p.heads| + 1);
    KeepsOn(before, was, kv.rows, |p.heads| + 1, |p.heads| + 1);
  }

  lemma FrameEnd(p: Predictor, hidden: Vec, codes: seq<int>, base: int)
    requires Wired(p) && |codes| == |p.heads| + 1
    ensures Frame(p, hidden, codes, base) == Some(codes)
  {
  }

  // ----- the frozen schedule --------------------------------------------------------------

  datatype Step = Step(T: nat, nPast: nat, head: nat)

  /** What the executor holds after load: one step per codebook with its positions and mask. */
  datatype Schedule = Schedule(steps: seq<Step>, positions: seq<seq<nat>>, masks: seq<seq<seq<bool>>>)

  /** Step g of a frame: two inputs at positions 0 and 1 first, then one at position g + 1. */
  function StepAt(g: nat): Step { if g == 0 then Step(2, 0, 0) else Step(1, g + 1, g) }

  predicate ScheduleOk(s: Schedule, n: nat) {
    && |s.steps| == |s.positions| == |s.masks| == n
    && (forall g | 0 <= g < n :: s.steps[g] == StepAt(g))
    && (forall g | 0 <= g < n :: PositionsOk(s.positions[g], s.steps[g].nPast, s.steps[g].T))
    && (forall g | 0 <= g < n :: MaskOk(s.masks[g], s.steps[g].nPast, s.steps[g].T))
  }

  /** code_predictor_exec_init. */
  method ExecInit(n: nat) returns (s: Schedule)
    requires n >= 1
    ensures ScheduleOk(s, n)
  {
    var steps := [Step(2, 0, 0)];
    for g := 1 to n
      invariant |steps| == g && forall j | 0 <= j < g :: steps[j] == StepAt(j)
    {
      steps := steps + [Step(1, g + 1, g)];
    }
    var positions, masks := [], [];
    for i := 0 to n
      invariant |positions| == |masks| == i
      invariant forall g | 0 <= g < i :: PositionsOk(positions[g], steps[g].nPast, steps[g].T)
      invariant forall g | 0 <= g < i :: MaskOk(masks[g], steps[g].nPast, steps[g].T)
    {
      var pos := BuildPositions(steps[i].nPast, steps[i].T);
      var mask := BuildMask(steps[i].nPast, steps[i].T);
      positions, masks := positions + [pos], masks + [mask];
    }
    s := Schedule(steps, positions, masks);
  }

  /** Each frozen step starts where the previous one leaves the cache, and the last one leaves
      n + 1 rows. */
  lemma StepsChain(n: nat, g: nat)
    requires g < n
    ensures StepAt(0).nPast == 0
    ensures g > 0 ==> StepAt(g).nPast == StepAt(g - 1).nPast + StepAt(g - 1).T
    ensures StepAt(g).head == g && StepAt(g).nPast + StepAt(g).T == g + 2 <= n + 1
  {
  }

  /** cp_exec_run_step. */
  method ExecRunStep(p: Predictor, kv: KvCache, s: Schedule, g: nat, batch: seq<Vec>, ghost past: seq<Vec>)
    returns (logits: Vec)
    requires ScheduleOk(s, |p.heads|) && g < |p.heads| && |p.heads| + 1 <= kv.maxSeqLen
    requires |batch| == StepAt(g).T && |past| == StepAt(g).nPast && kv.Caches(p.model, past, |past|)
    modifies kv`rows, kv`curLen
    ensures kv.Live(p.model, past + Project(p, batch)) && KeepsBehind(old(kv.rows), kv.rows, |past| + |batch|)
    ensures logits == p.heads[g](Hidden(p.model, past + Project(p, batch), |p.model.layers|, g + 1))
  {
    var st := s.steps[g];
    StepsChain(|p.heads|, g);
    logits := Pass(p, kv, batch, s.positions[st.head], s.masks[st.head], st.nPast, st.head, past);
  }

  /** One turn of code_predictor_exec_frame: two inputs for the first codebook, one later. */
  method ExecCode(p: Predictor, kv: KvCache, s: Schedule, hidden: Vec, codes: seq<int>, base: int, g: nat)
    returns (c: int)
    requires Wired(p) && ScheduleOk(s, |p.heads|) && g == |codes| - 1 < |p.heads| && |p.heads| + 1 <= kv.maxSeqLen
    requires if g == 0 then kv.Shape(|p.model.layers|) else kv.Live(p.model, Inputs(p, hidden, codes[..g]))
    modifies kv`rows, kv`curLen
    ensures kv.Live(p.model, Inputs(p, hidden, codes)) && KeepsBehind(old(kv.rows), kv.rows, g + 2)
    ensures c == NextCode(p, hidden, codes, base)
  {
    hide Hidden, NextCode, Inputs, ScheduleOk, RowsUpTo, KvCache.Caches, KvCache.Shape, KvCache.Live, KeepsBehind, Project;
    var logits;
    if g == 0 {
      assert codes == [codes[0]];
      TwoInputs(p, hidden, codes[0]);
      EmptyCache(p, kv);
      logits := ExecRunStep(p, kv, s, g, [hidden, p.talkerEmbed(codes[0])], []);
    } else {
      LastInput(p, hidden, codes);
      LiveCache(p, kv, Inputs(p, hidden, codes[..g]));
      logits := ExecRunStep(p, kv, s, g, [p.embeds[g - 1](codes[g])], Inputs(p, hidden, codes[..g]));
    }
    NextCodeIs(p, hidden, codes, base, logits);
    c := p.sample(logits, base + 1 + g);
  }

  /** code_predictor_exec_frame. The same result as the legacy frame, from any cache content. */
  method ExecFrame(p: Predictor, kv: KvCache, s: Schedule, hidden: Vec, c0: int, base: int)
    returns (codes: Option<seq<int>>)
    requires Wired(p) && kv.Shape(|p.model.layers|) && ScheduleOk(s, |p.heads|)
    modifies kv`rows, kv`curLen
    ensures kv.Shape(|p.model.layers|) && KeepsBehind(old(kv.rows), kv.rows, |p.heads| + 1)
    ensures codes == if |p.heads| + 1 > kv.maxSeqLen then None else Frame(p, hidden, [c0], base)
    ensures codes.Some? ==> kv.curLen == |p.heads| + 1
  {
    hide Hidden, Frame, NextCode, Inputs, RowsUpTo, ScheduleOk, KvCache.Caches, KvCache.Shape, KvCache.Live, KeepsBehind;
    KeepsSelf(kv.rows, |p.heads| + 1);
    if |p.heads| + 1 > kv.maxSeqLen { return None; }
    var out := [c0];
    kv.Reset();
    for g := 0 to |p.heads|
      invariant |out| == g + 1 && Frame(p, hidden, out, base) == Frame(p, hidden, [c0], base)
      invariant kv.Shape(|p.model.layers|) && KeepsBehind(old(kv.rows), kv.rows, |p.heads| + 1)
      invariant g > 0 ==> kv.Live(p.model, Inputs(p, hidden, out[..g])) && kv.curLen == g + 1
    {
      ghost var was := kv.rows;
      var c := ExecCode(p, kv, s, hidden, out, base, g);
      FrameSoFar(p, kv, old(kv.rows), was, hidden, out);
      FrameStep(p, hidden, out, base);
      if c < 0 { return None; }
      out := out + [c];
      assert out[..g + 1] == out[..|out| - 1];
    }
    FrameEnd(p, hidden, out, base);
    return Some(out);
  }
}
