/** The talker over its KV cache: the legacy forward pass that rebuilds its graph for every call
    (src/talker-forward.h), the replayed decode with a fixed read window (src/talker-exec.h), and
    the stateless transformer both must agree with. Tensor maths is abstract: what is modelled is
    which rows each attention may see and which rows each pass writes. */
module Talker {
  import opened Seqs
  import opened Vectors

  /** One cached key/value pair of one layer; its absolute position is baked into the key. */
  datatype Kv = Kv(key: Vec, value: Vec)

  /** One decoder layer: the cache row of a position, and the layer's output at a position given
      the rows its query may attend to, oldest first. */
  datatype Layer = Layer(project: (Vec, nat) -> Kv, attend: (Vec, nat, seq<Kv>) -> Vec)

  datatype Output = Output(hidden: Vec, logits: Vec)

  /** The layer stack, and final norm plus codec head. */
  datatype Model = Model(layers: seq<Layer>, head: Vec -> Output)

  // ----- the reference: no cache at all ---------------------------------------------------

  /** Input of layer l at position p, recomputed from the embeddings. */
  function Hidden(m: Model, xs: seq<Vec>, l: nat, p: nat): Vec
    requires l <= |m.layers| && p < |xs|
    decreases l, 0
  {
    if l == 0 then xs[p]
    else m.layers[l - 1].attend(Hidden(m, xs, l - 1, p), p, RowsUpTo(m, xs, l - 1, p + 1))
  }

  /** The row position p leaves in layer l's cache. */
  function RowOf(m: Model, xs: seq<Vec>, l: nat, p: nat): Kv
    requires l < |m.layers| && p < |xs|
    decreases l, 1
  {
    m.layers[l].project(Hidden(m, xs, l, p), p)
  }

  function RowsUpTo(m: Model, xs: seq<Vec>, l: nat, n: nat): (r: seq<Kv>)
    requires l < |m.layers| && n <= |xs|
    ensures |r| == n
    decreases l, 2
  {
    seq(n, p requires 0 <= p < n => RowOf(m, xs, l, p))
  }

  /** The whole transformer over the whole sequence: hidden state and logits of the last position. */
  function Forward(m: Model, xs: seq<Vec>): Output
    requires xs != []
  {
    m.head(Hidden(m, xs, |m.layers|, |xs| - 1))
  }

  /** Later positions do not change earlier ones. */
  lemma {:induction false} Causal(m: Model, xs: seq<Vec>, ys: seq<Vec>, l: nat, p: nat)
    requires l <= |m.layers| && p < |xs| && p < |ys| && xs[..p + 1] == ys[..p + 1]
    ensures Hidden(m, xs, l, p) == Hidden(m, ys, l, p)
    decreases l, 1
  {
    if l == 0 {
      assert xs[p] == xs[..p + 1][p] == ys[..p + 1][p];
    } else {
      Causal(m, xs, ys, l - 1, p);
      CausalRows(m, xs, ys, l - 1, p + 1);
    }
  }

  lemma {:induction false} CausalRows(m: Model, xs: seq<Vec>, ys: seq<Vec>, l: nat, n: nat)
    requires l < |m.layers| && n <= |xs| && n <= |ys| && xs[..n] == ys[..n]
    ensures RowsUpTo(m, xs, l, n) == RowsUpTo(m, ys, l, n)
    decreases l, 2
  {
    forall p | 0 <= p < n ensures RowOf(m, xs, l, p) == RowOf(m, ys, l, p) {
      assert xs[..p + 1] == xs[..n][..p + 1] && ys[..p + 1] == ys[..n][..p + 1];
      Causal(m, xs, ys, l, p);
    }
  }

  // ----- masked attention -----------------------------------------------------------------

  /** The rows a mask row lets through, in order. */
  function Visible(rows: seq<Kv>, mask: seq<bool>): seq<Kv>
    requires |rows| == |mask|
  {
    if rows == [] then []
    else
      var n := |rows| - 1;
      Visible(rows[..n], mask[..n]) + (if mask[n] then [rows[n]] else [])
  }

  /** A mask that is open exactly up to position p hides whatever lies behind. */
  lemma {:induction false} CausalMaskHidesRest(rows: seq<Kv>, mask: seq<bool>, p: nat)
    requires |rows| == |mask| && p < |rows| && forall k | 0 <= k < |mask| :: mask[k] == (k <= p)
    ensures Visible(rows, mask) == rows[..p + 1]
  {
    var n := |rows| - 1;
    if p < n {
      CausalMaskHidesRest(rows[..n], mask[..n], p);
      assert rows[..n][..p + 1] == rows[..p + 1];
    } else {
      AllVisible(rows, mask);
      assert rows[..p + 1] == rows;
    }
  }

  lemma {:induction false} AllVisible(rows: seq<Kv>, mask: seq<bool>)
    requires |rows| == |mask| && forall k | 0 <= k < |mask| :: mask[k]
    ensures Visible(rows, mask) == rows
  {
    if rows != [] {
      var n := |rows| - 1;
      AllVisible(rows[..n], mask[..n]);
      assert rows == rows[..n] + [rows[n]];
    }
  }

  // ----- the cache ------------------------------------------------------------------------

  /** Every layer keeps its rows from n on. */
  predicate KeepsBehind(was: seq<seq<Kv>>, now: seq<seq<Kv>>, n: nat) {
    |now| == |was| && forall l | 0 <= l < |was| :: KeepsRows(was[l], now[l], n)
  }

  predicate KeepsRows(was: seq<Kv>, now: seq<Kv>, n: nat) {
    |now| == |was| && forall p | n <= p < |was| :: now[p] == was[p]
  }

  lemma KeepsOn(a: seq<seq<Kv>>, b: seq<seq<Kv>>, c: seq<seq<Kv>>, n: nat, k: nat)
    requires KeepsBehind(a, b, n) && KeepsBehind(b, c, k) && n <= k
    ensures KeepsBehind(a, c, k)
  {
    forall l | 0 <= l < |a| ensures KeepsRows(a[l], c[l], k) {
      assert KeepsRows(a[l], b[l], n) && KeepsRows(b[l], c[l], k);
    }
  }

  lemma OneLayerKeeps(was: seq<seq<Kv>>, now: seq<seq<Kv>>, l: nat, n: nat)
    requires l < |was| == |now| && KeepsRows(was[l], now[l], n)
    requires forall j | 0 <= j < |was| && j != l :: now[j] == was[j]
    ensures KeepsBehind(was, now, n)
  {
  }

  lemma KeepsMore(a: seq<seq<Kv>>, b: seq<seq<Kv>>, n: nat, k: nat)
    requires KeepsBehind(a, b, n) && n <= k
    ensures KeepsBehind(a, b, k)
  {
    KeepsSelf(b, k);
    KeepsOn(a, b, b, n, k);
  }

  lemma KeepsSelf(a: seq<seq<Kv>>, n: nat)
    ensures KeepsBehind(a, a, n)
  {
  }

  class KvCache {
    var rows: seq<seq<Kv>>   // [layer][position]
    var curLen: nat
    const maxSeqLen: nat

    constructor (layers: nat, maxSeqLen: nat)
      ensures Shape(layers) && curLen == 0 && this.maxSeqLen == maxSeqLen
    {
      rows := seq(layers, _ => seq(maxSeqLen, _ => Kv([], [])));
      curLen, this.maxSeqLen := 0, maxSeqLen;
    }

    ghost predicate Shape(layers: nat)
      reads this`rows
    {
      |rows| == layers && forall l | 0 <= l < layers :: |rows[l]| == maxSeqLen
    }

    /** The first n rows of every layer are those of the embeddings xs; rows behind them may hold
        anything, for instance what an earlier utterance left there. */
    ghost predicate Caches(m: Model, xs: seq<Vec>, n: nat)
      reads this
    {
      && Shape(|m.layers|) && n <= |xs| && n <= maxSeqLen
      && forall l | 0 <= l < |m.layers| :: rows[l][..n] == RowsUpTo(m, xs, l, n)
    }

    /** The live part of the cache is exactly that of the embeddings xs. */
    ghost predicate Live(m: Model, xs: seq<Vec>)
      reads this
    {
      curLen == |xs| && Caches(m, xs, curLen)
    }

    /** In the middle of a pass over xs: the first `done` layers hold all rows, the others the
        first n. */
    ghost predicate Midway(m: Model, xs: seq<Vec>, n: nat, done: nat)
      requires n <= |xs|
      reads this
    {
      && Shape(|m.layers|) && |xs| <= maxSeqLen
      && (forall j | 0 <= j < |m.layers| && j < done :: rows[j][..|xs|] == RowsUpTo(m, xs, j, |xs|))
      && (forall j | done <= j < |m.layers| :: rows[j][..n] == RowsUpTo(m, xs, j, n))
    }

    /** Overwrites one row of one layer. */
    method Write(l: nat, p: nat, kv: Kv)
      requires l < |rows| && p < |rows[l]|
      modifies this`rows
      ensures rows == old(rows)[l := old(rows)[l][p := kv]]
    {
      rows := rows[l := rows[l][p := kv]];
    }

    method Reset()
      modifies this`curLen
      ensures curLen == 0
    {
      curLen := 0;
    }
  }

  // ----- graph inputs ---------------------------------------------------------------------

  /** Positions nPast .. nPast + T - 1. */
  method BuildPositions(nPast: nat, T: nat) returns (pos: seq<nat>)
    ensures PositionsOk(pos, nPast, T)
  {
    pos := [];
    for i := 0 to T
      invariant PositionsOk(pos, nPast, i)
    {
      pos := pos + [nPast + i];
    }
  }

  predicate PositionsOk(pos: seq<nat>, nPast: nat, T: nat) {
    |pos| == T && forall i | 0 <= i < T :: pos[i] == nPast + i
  }

  /** The causal mask: query q of T sees keys 0 .. nPast + q of the nPast + T there are. */
  predicate MaskOk(mask: seq<seq<bool>>, nPast: nat, T: nat) {
    |mask| == T && forall q | 0 <= q < T :: RowOk(mask[q], nPast + q, nPast + T)
  }

  /** A mask row of n keys open exactly up to key p. */
  predicate RowOk(row: seq<bool>, p: nat, n: nat) {
    |row| == n && forall k | 0 <= k < n :: row[k] == (k <= p)
  }

  method BuildRow(p: nat, n: nat) returns (row: seq<bool>)
    requires p < n
    ensures RowOk(row, p, n)
  {
    row := seq(n, _ => false);
    for k := 0 to p + 1
      invariant |row| == n && forall j | 0 <= j < n :: row[j] == (j < k)
    {
      row := row[k := true];
    }
  }

  method BuildMask(nPast: nat, T: nat) returns (mask: seq<seq<bool>>)
    ensures MaskOk(mask, nPast, T)
  {
    mask := [];
    for q := 0 to T
      invariant |mask| == q && forall r | 0 <= r < q :: RowOk(mask[r], nPast + r, nPast + T)
    {
      var row := BuildRow(nPast + q, nPast + T);
      mask := mask + [row];
    }
  }

  // ----- one layer ------------------------------------------------------------------------

  /** The write half of a layer: rows [nPast, nPast + T), each projected at its own position. */
  method WriteRows(m: Model, l: nat, hs: seq<Vec>, pos: seq<nat>, kv: KvCache, nPast: nat, ghost xs: seq<Vec>)
    requires l < |m.layers| && |xs| == nPast + |hs| <= kv.maxSeqLen && PositionsOk(pos, nPast, |hs|)
    requires kv.Shape(|m.layers|) && kv.rows[l][..nPast] == RowsUpTo(m, xs, l, nPast)
    requires forall q | 0 <= q < |hs| :: hs[q] == Hidden(m, xs, l, nPast + q)
    modifies kv`rows
    ensures kv.Shape(|m.layers|) && kv.rows[l][..|xs|] == RowsUpTo(m, xs, l, |xs|)
    ensures forall t | 0 <= t < |hs| :: kv.rows[l][nPast + t] == m.layers[l].project(hs[t], nPast + t)
    ensures KeepsRows(old(kv.rows[l]), kv.rows[l], |xs|)
    ensures forall j | 0 <= j < |m.layers| && j != l :: kv.rows[j] == old(kv.rows[j])
  {
    hide Hidden, RowsUpTo;
    for t := 0 to |hs|
      invariant kv.Shape(|m.layers|) && kv.rows[l][..nPast + t] == RowsUpTo(m, xs, l, nPast + t)
      invariant forall i | 0 <= i < t :: kv.rows[l][nPast + i] == m.layers[l].project(hs[i], nPast + i)
      invariant KeepsRows(old(kv.rows[l]), kv.rows[l], |xs|)
      invariant forall j | 0 <= j < |m.layers| && j != l :: kv.rows[j] == old(kv.rows[j])
    {
      ghost var was := kv.rows[l];
      kv.Write(l, nPast + t, m.layers[l].project(hs[t], pos[t]));
      assert kv.rows[l][..nPast + t + 1] == was[..nPast + t] + [kv.rows[l][nPast + t]];
      NextRow(m, xs, l, nPast + t);
    }
  }

  /** A layer over T new positions: write rows [nPast, nPast + T), then let query q read
      [0, nPast + T) through its mask row. xs are all embeddings, the new ones last. */
  method LegacyLayer(m: Model, l: nat, hs: seq<Vec>, pos: seq<nat>, mask: seq<seq<bool>>, kv: KvCache, nPast: nat,
                     ghost xs: seq<Vec>) returns (out: seq<Vec>)
    requires l < |m.layers| && |xs| == nPast + |hs| <= kv.maxSeqLen
    requires PositionsOk(pos, nPast, |hs|) && MaskOk(mask, nPast, |hs|)
    requires kv.Shape(|m.layers|) && kv.rows[l][..nPast] == RowsUpTo(m, xs, l, nPast)
    requires forall q | 0 <= q < |hs| :: hs[q] == Hidden(m, xs, l, nPast + q)
    modifies kv`rows
    ensures |out| == |hs| && forall q | 0 <= q < |out| :: out[q] == Hidden(m, xs, l + 1, nPast + q)
    ensures kv.Shape(|m.layers|) && kv.rows[l][..|xs|] == RowsUpTo(m, xs, l, |xs|)
    ensures forall t | 0 <= t < |hs| :: kv.rows[l][nPast + t] == m.layers[l].project(hs[t], nPast + t)
    ensures forall q | 0 <= q < |hs| ::
              out[q] == m.layers[l].attend(hs[q], nPast + q, kv.rows[l][..nPast + q + 1])
    ensures KeepsRows(old(kv.rows[l]), kv.rows[l], |xs|)
    ensures forall j | 0 <= j < |m.layers| && j != l :: kv.rows[j] == old(kv.rows[j])
  {
    hide Hidden, Visible, RowsUpTo, KeepsRows;
    WriteRows(m, l, hs, pos, kv, nPast, xs);
    var T := |hs|;
    out := [];
    for q := 0 to T
      modifies {}
      invariant |out| == q && forall k | 0 <= k < q :: out[k] == Hidden(m, xs, l + 1, nPast + k)
      invariant forall k | 0 <= k < q ::
                  out[k] == m.layers[l].attend(hs[k], nPast + k, kv.rows[l][..nPast + k + 1])
    {
      var read := kv.rows[l][..nPast + T];
      CausalMaskHidesRest(read, mask[q], nPast + q);
      assert read[..nPast + q + 1] == kv.rows[l][..nPast + q + 1];
      PrefixRows(m, xs, l, nPast + T, nPast + q + 1);
      HiddenStep(m, xs, l, nPast + q);
      out := out + [m.layers[l].attend(hs[q], pos[q], Visible(read, mask[q]))];
    }
  }

  lemma HiddenStep(m: Model, xs: seq<Vec>, l: nat, p: nat)
    requires l < |m.layers| && p < |xs|
    ensures Hidden(m, xs, l + 1, p) == m.layers[l].attend(Hidden(m, xs, l, p), p, RowsUpTo(m, xs, l, p + 1))
  {
  }

  lemma PrefixRows(m: Model, xs: seq<Vec>, l: nat, n: nat, k: nat)
    requires l < |m.layers| && k <= n <= |xs|
    ensures RowsUpTo(m, xs, l, n)[..k] == RowsUpTo(m, xs, l, k)
  {
  }

  lemma NextRow(m: Model, xs: seq<Vec>, l: nat, n: nat)
    requires l < |m.layers| && n < |xs|
    ensures RowsUpTo(m, xs, l, n + 1) == RowsUpTo(m, xs, l, n) + [RowOf(m, xs, l, n)]
  {
  }

  /** Replayed layer for one position: write row `row`, read the fixed window [0, W) through the
      uploaded mask row. */
  method ExecLayer(m: Model, l: nat, h: Vec, kv: KvCache, pos: nat, row: nat, mask: seq<bool>, ghost xs: seq<Vec>)
    returns (out: Vec)
    requires l < |m.layers| && |xs| == pos + 1 && pos == row < |mask| <= kv.maxSeqLen
    requires RowOk(mask, pos, |mask|)
    requires kv.Shape(|m.layers|) && kv.rows[l][..pos] == RowsUpTo(m, xs, l, pos)
    requires h == Hidden(m, xs, l, pos)
    modifies kv`rows
    ensures out == Hidden(m, xs, l + 1, pos)
    ensures kv.Shape(|m.layers|) && kv.rows[l][..|xs|] == RowsUpTo(m, xs, l, |xs|)
    ensures kv.rows[l][pos] == m.layers[l].project(h, pos)
    ensures out == m.layers[l].attend(h, pos, kv.rows[l][..pos + 1])
    ensures KeepsRows(old(kv.rows[l]), kv.rows[l], |xs|)
    ensures forall j | 0 <= j < |m.layers| && j != l :: kv.rows[j] == old(kv.rows[j])
  {
    hide Hidden, Visible, RowsUpTo;
    var W := |mask|;
    ghost var was := kv.rows[l];
    kv.Write(l, row, m.layers[l].project(h, pos));
    assert kv.rows[l][..pos + 1] == was[..pos] + [kv.rows[l][pos]];
    NextRow(m, xs, l, pos);
    var read := kv.rows[l][..W];
    CausalMaskHidesRest(read, mask, pos);
    assert read[..pos + 1] == kv.rows[l][..pos + 1];
    HiddenStep(m, xs, l, pos);
    out := m.layers[l].attend(h, pos, Visible(read, mask));
  }

  // ----- whole passes ---------------------------------------------------------------------

  /** The layer stack over new embeddings behind nPast cached positions. */
  method RunLayers(m: Model, kv: KvCache, batch: seq<Vec>, pos: seq<nat>, mask: seq<seq<bool>>, nPast: nat,
                   ghost past: seq<Vec>) returns (hs: seq<Vec>)
    requires |past| == nPast && nPast + |batch| <= kv.maxSeqLen
    requires PositionsOk(pos, nPast, |batch|) && MaskOk(mask, nPast, |batch|)
    requires kv.Caches(m, past, nPast)
    modifies kv`rows
    ensures kv.Caches(m, past + batch, nPast + |batch|)
    ensures KeepsBehind(old(kv.rows), kv.rows, nPast + |batch|)
    ensures |hs| == |batch| && forall q | 0 <= q < |hs| :: hs[q] == Hidden(m, past + batch, |m.layers|, nPast + q)
  {
    hide RowsUpTo, KeepsBehind, KeepsRows;
    KeepsSelf(kv.rows, nPast + |batch|);
    ghost var xs := past + batch;
    EmbeddingIsInput(m, xs);
    CachedPrefix(m, past, batch, kv);
    hs := batch;
    for l := 0 to |m.layers|
      invariant |hs| == |batch| && kv.Midway(m, xs, nPast, l)
      invariant KeepsBehind(old(kv.rows), kv.rows, |xs|)
      invariant forall q | 0 <= q < |hs| :: hs[q] == Hidden(m, xs, l, nPast + q)
    {
      ghost var was := kv.rows;
      hs := LegacyLayer(m, l, hs, pos, mask, kv, nPast, xs);
      OneLayerKeeps(was, kv.rows, l, |xs|);
      KeepsOn(old(kv.rows), was, kv.rows, |xs|, |xs|);
    }
  }

  /** talker_forward_core: positions and mask for this call, the layers, the last position's
      output. */
  method ForwardCore(m: Model, kv: KvCache, batch: seq<Vec>, nPast: nat, ghost past: seq<Vec>) returns (out: Output)
    requires |past| == nPast && batch != [] && nPast + |batch| <= kv.maxSeqLen
    requires kv.Caches(m, past, nPast)
    modifies kv`rows, kv`curLen
    ensures out == Forward(m, past + batch) && kv.Live(m, past + batch)
    ensures KeepsBehind(old(kv.rows), kv.rows, nPast + |batch|)
  {
    hide Hidden, RowsUpTo;
    var pos := BuildPositions(nPast, |batch|);
    var mask := BuildMask(nPast, |batch|);
    var hs := RunLayers(m, kv, batch, pos, mask, nPast, past);
    out := m.head(hs[|hs| - 1]);
    kv.curLen := nPast + |batch|;
  }

  lemma EmbeddingIsInput(m: Model, xs: seq<Vec>)
    ensures forall p | 0 <= p < |xs| :: Hidden(m, xs, 0, p) == xs[p]
  {
  }

  lemma CachedPrefix(m: Model, past: seq<Vec>, batch: seq<Vec>, kv: KvCache)
    requires kv.Caches(m, past, |past|)
    ensures kv.Caches(m, past + batch, |past|)
  {
    forall l | 0 <= l < |m.layers| ensures kv.rows[l][..|past|] == RowsUpTo(m, past + batch, l, |past|) {
      CausalRows(m, past, past + batch, l, |past|);
    }
  }

  /** What a live cache holds and what the pass over it answers, from the embeddings up: every layer
      projects its inputs, each at its own position, and attends from each position to the rows up to
      that position; the head reads the last position. */
  lemma Unrolled(m: Model, kv: KvCache, xs: seq<Vec>, l: nat, p: nat)
    requires kv.Live(m, xs) && l < |m.layers| && p < |xs|
    ensures p < |kv.rows[l]| && Hidden(m, xs, 0, p) == xs[p]
    ensures kv.rows[l][p] == m.layers[l].project(Hidden(m, xs, l, p), p)
    ensures Hidden(m, xs, l + 1, p) == m.layers[l].attend(Hidden(m, xs, l, p), p, kv.rows[l][..p + 1])
    ensures Forward(m, xs) == m.head(Hidden(m, xs, |m.layers|, |xs| - 1))
  {
    hide Hidden;
    var n := |xs|;
    assert kv.rows[l][..n][..p + 1] == kv.rows[l][..p + 1];
    assert kv.rows[l][..n][p] == kv.rows[l][p];
    PrefixRows(m, xs, l, n, p + 1);
    EmbeddingIsInput(m, xs);
    HiddenStep(m, xs, l, p);
  }

  /** The first layer's rows of a live cache come from the embeddings themselves. */
  lemma FirstLayerRows(m: Model, kv: KvCache, xs: seq<Vec>)
    requires kv.Live(m, xs) && m.layers != []
    ensures |xs| <= |kv.rows[0]| && forall p | 0 <= p < |xs| :: kv.rows[0][p] == m.layers[0].project(xs[p], p)
  {
    hide Hidden, RowsUpTo;
    EmbeddingIsInput(m, xs);
    forall p | 0 <= p < |xs| ensures kv.rows[0][p] == m.layers[0].project(xs[p], p) { Unrolled(m, kv, xs, 0, p); }
  }

  /** Prefill. Fails when the prompt does not fit; the cache is rewound either way. */
  method Prefill(m: Model, kv: KvCache, prompt: seq<Vec>) returns (ok: bool, out: Output)
    requires kv.Shape(|m.layers|) && prompt != []
    modifies kv`rows, kv`curLen
    ensures ok == (|prompt| <= kv.maxSeqLen)
    ensures ok ==> out == Forward(m, prompt) && kv.Live(m, prompt) && KeepsBehind(old(kv.rows), kv.rows, |prompt|)
    ensures ok && m.layers != [] ==>
              |prompt| <= |kv.rows[0]| && forall p | 0 <= p < |prompt| :: kv.rows[0][p] == m.layers[0].project(prompt[p], p)
    ensures !ok ==> kv.curLen == 0 && kv.rows == old(kv.rows)
  {
    kv.Reset();
    out := Output([], []);
    if |prompt| > kv.maxSeqLen { return false, out; }
    out := ForwardCore(m, kv, prompt, 0, []);
    assert [] + prompt == prompt;
    if m.layers != [] { FirstLayerRows(m, kv, prompt); }
    return true, out;
  }

  /** Legacy decode of one embedding. Fails when the cache is full. */
  method Decode(m: Model, kv: KvCache, x: Vec, ghost past: seq<Vec>) returns (ok: bool, out: Output)
    requires kv.Live(m, past)
    modifies kv`rows, kv`curLen
    ensures ok == (|past| + 1 <= kv.maxSeqLen)
    ensures ok ==> out == Forward(m, past + [x]) && kv.Live(m, past + [x])
    ensures KeepsBehind(old(kv.rows), kv.rows, |past| + 1)
    ensures ok && m.layers != [] ==>
              |past| < |kv.rows[0]| && kv.rows[0][|past|] == m.layers[0].project(x, |past|)
    ensures !ok ==> kv.Live(m, past)
  {
    out := Output([], []);
    KeepsSelf(kv.rows, |past| + 1);
    if kv.curLen + 1 > kv.maxSeqLen { return false, out; }
    out := ForwardCore(m, kv, [x], kv.curLen, past);
    if m.layers != [] { FirstLayerRows(m, kv, past + [x]); }
    return true, out;
  }

  /** Row p of the causal table is the mask of position p. */
  predicate TableOk(table: seq<seq<bool>>) {
    forall p | 0 <= p < |table| :: RowOk(table[p], p, |table|)
  }

  /** The table the executor builds at load time. */
  method CausalTable(W: nat) returns (table: seq<seq<bool>>)
    ensures |table| == W && TableOk(table)
  {
    table := [];
    for p := 0 to W
      invariant |table| == p && forall r | 0 <= r < p :: RowOk(table[r], r, W)
    {
      var row := BuildRow(p, W);
      table := table + [row];
    }
  }

  /** The cache row a replayed step writes: positions wrap at the window. */
  function Wrap(nPast: nat, W: nat): nat
    requires W >= 1
  {
    nPast % W
  }

  lemma NoWrap(nPast: nat, W: nat)
    requires nPast < W
    ensures Wrap(nPast, W) == nPast
  {
  }

  /** Replayed decode of one embedding at position nPast < W. */
  method ExecDecode(m: Model, kv: KvCache, table: seq<seq<bool>>, x: Vec, nPast: nat, ghost past: seq<Vec>)
    returns (out: Output)
    requires kv.Live(m, past) && nPast == |past| < |table| <= kv.maxSeqLen
    requires TableOk(table)
    modifies kv`rows, kv`curLen
    ensures out == Forward(m, past + [x]) && kv.Live(m, past + [x])
    ensures KeepsBehind(old(kv.rows), kv.rows, |past| + 1)
    ensures m.layers != [] ==> nPast < |kv.rows[0]| && kv.rows[0][nPast] == m.layers[0].project(x, nPast)
  {
    hide RowsUpTo, KeepsBehind, KeepsRows, Wrap, Hidden;
    KeepsSelf(kv.rows, nPast + 1);
    ghost var xs := past + [x];
    EmbeddingIsInput(m, xs);
    CachedPrefix(m, past, [x], kv);
    var mask := table[nPast];
    var row := Wrap(nPast, |table|);
    NoWrap(nPast, |table|);
    var h := x;
    for l := 0 to |m.layers|
      invariant h == Hidden(m, xs, l, nPast) && kv.Midway(m, xs, nPast, l)
      invariant KeepsBehind(old(kv.rows), kv.rows, |xs|)
    {
      ghost var was := kv.rows;
      h := ExecLayer(m, l, h, kv, nPast, row, mask, xs);
      OneLayerKeeps(was, kv.rows, l, |xs|);
      KeepsOn(old(kv.rows), was, kv.rows, |xs|, |xs|);
    }
    out := m.head(h);
    kv.curLen := nPast + 1;
    if m.layers != [] { FirstLayerRows(m, kv, xs); }
  }
}
