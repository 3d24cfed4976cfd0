/** The generation loop of one utterance (src/pipeline-tts.cpp): talker step, codebook-0 sample,
    code predictor, next embedding, and the audio side, streamed or buffered. The reference run
    knows nothing of executors, windows, caches or counters. */
module Generate {
  import opened Seqs
  import opened Talker
  import P = Predictor
  import opened Vectors
  import opened Multiples
  import S = CodecStream
  import R = CodecRuns
  import Philox
  import Bits

  type Codes = seq<int>

  /** Talker, predictor, the codebook-0 sampler (logits, history, Philox subsequence), the client's
      cancel poll by step, and the embedding width. */
  datatype Engine = Engine(
    talker: Model, predictor: P.Predictor, sample: (Vec, seq<int>, int) -> int, eos: int,
    cancel: nat -> bool, hidden: nat)

  /** Prompt rows, and what is added to the embeddings of generated frames. */
  datatype Prompt = Prompt(rows: seq<Vec>, trailing: seq<Vec>, pad: Vec)

  datatype Status = Finished | Stopped | Failed

  datatype Run = Run(status: Status, frames: seq<Codes>)

  function EmbedRow(table: int -> Vec, code: int): Vec { table(code) }

  ghost predicate Sized(e: Engine, prompt: Prompt) {
    && P.Wired(e.predictor) && |e.predictor.embeds| >= |e.predictor.heads|
    && (forall c: int :: |EmbedRow(e.predictor.talkerEmbed, c)| == e.hidden)
    && (forall g, c: int | 0 <= g < |e.predictor.embeds| :: |EmbedRow(e.predictor.embeds[g], c)| == e.hidden)
    && (forall i | 0 <= i < |prompt.trailing| :: |prompt.trailing[i]| == e.hidden)
    && |prompt.pad| == e.hidden && prompt.rows != []
  }

  function CodebooksOf(e: Engine): (K: nat)
    ensures K >= 1
  {
    |e.predictor.heads| + 1
  }

  // ----- the reference --------------------------------------------------------------------

  /** Sum of the embeddings of the first n codes of a frame. */
  ghost function EmbedSum(e: Engine, prompt: Prompt, codes: Codes, n: nat): (r: Vec)
    requires Sized(e, prompt) && |codes| == CodebooksOf(e) && 1 <= n <= |codes|
    ensures |r| == e.hidden
  {
    if n == 1 then EmbedRow(e.predictor.talkerEmbed, codes[0])
    else Plus(EmbedSum(e, prompt, codes, n - 1), EmbedRow(e.predictor.embeds[n - 2], codes[n - 1]))
  }

  /** The text row laid over frame t: the trailing text while it lasts, then padding. */
  function Overlay(prompt: Prompt, t: nat): Vec {
    if t < |prompt.trailing| then prompt.trailing[t] else prompt.pad
  }

  ghost function NextEmbedding(e: Engine, prompt: Prompt, codes: Codes, t: nat): (r: Vec)
    requires Sized(e, prompt) && |codes| == CodebooksOf(e)
    ensures |r| == e.hidden
  {
    Plus(EmbedSum(e, prompt, codes, |codes|), Overlay(prompt, t))
  }

  /** Everything the talker has been fed before the step that follows the given frames. */
  ghost function Fed(e: Engine, prompt: Prompt, frames: seq<Codes>): (r: seq<Vec>)
    requires Sized(e, prompt) && S.Rectangular(frames, CodebooksOf(e))
    ensures |r| == |prompt.rows| + |frames|
  {
    if frames == [] then prompt.rows
    else
      var t := |frames| - 1;
      Fed(e, prompt, frames[..t]) + [NextEmbedding(e, prompt, frames[t], t)]
  }

  /** Coordinate d of the rows of the first n acoustic codes, one after the other: code g + 1 through
      the predictor's table g. */
  ghost predicate IsColumn(e: Engine, codes: Codes, n: nat, d: nat, col: seq<real>) {
    && |col| == n < |codes| && n <= |e.predictor.embeds|
    && forall g | 0 <= g < n ::
         d < |e.predictor.embeds[g](codes[g + 1])| && col[g] == e.predictor.embeds[g](codes[g + 1])[d]
  }

  lemma {:induction false} SumOfColumn(e: Engine, prompt: Prompt, codes: Codes, n: nat, d: nat, col: seq<real>)
    requires Sized(e, prompt) && |codes| == CodebooksOf(e) && d < e.hidden && IsColumn(e, codes, n, d, col)
    ensures d < |e.predictor.talkerEmbed(codes[0])|
    ensures EmbedSum(e, prompt, codes, n + 1)[d] == e.predictor.talkerEmbed(codes[0])[d] + Total(col)
    decreases n
  {
    assert |EmbedRow(e.predictor.talkerEmbed, codes[0])| == e.hidden;
    if n > 0 {
      SumOfColumn(e, prompt, codes, n - 1, d, col[..n - 1]);
      assert |EmbedRow(e.predictor.embeds[n - 1], codes[n])| == e.hidden;
    }
  }

  lemma ColumnOf(e: Engine, prompt: Prompt, codes: Codes, d: nat) returns (col: seq<real>)
    requires Sized(e, prompt) && |codes| == CodebooksOf(e) && d < e.hidden
    ensures IsColumn(e, codes, |codes| - 1, d, col) && d < |e.predictor.talkerEmbed(codes[0])|
    ensures |prompt.pad| == e.hidden && forall t: nat | t < |prompt.trailing| :: |prompt.trailing[t]| == e.hidden
    ensures forall t: nat ::
              NextEmbedding(e, prompt, codes, t)[d]
              == e.predictor.talkerEmbed(codes[0])[d] + Total(col)
                 + (if t < |prompt.trailing| then prompt.trailing[t][d] else prompt.pad[d])
  {
    hide *;
    SizedText(e, prompt);
    col := ColumnRows(e, prompt, codes, d);
    SumOfColumn(e, prompt, codes, |codes| - 1, d, col);
    forall t: nat
      ensures NextEmbedding(e, prompt, codes, t)[d]
           == e.predictor.talkerEmbed(codes[0])[d] + Total(col)
              + (if t < |prompt.trailing| then prompt.trailing[t][d] else prompt.pad[d]) {
      NextAt(e, prompt, codes, t, d);
    }
  }

  lemma ColumnRows(e: Engine, prompt: Prompt, codes: Codes, d: nat) returns (col: seq<real>)
    requires Sized(e, prompt) && |codes| == CodebooksOf(e) && d < e.hidden
    ensures IsColumn(e, codes, |codes| - 1, d, col)
  {
    forall g | 0 <= g < |codes| - 1 ensures d < |e.predictor.embeds[g](codes[g + 1])| {
      assert |EmbedRow(e.predictor.embeds[g], codes[g + 1])| == e.hidden;
    }
    hide Sized;
    col := seq(|codes| - 1, g requires 0 <= g < |codes| - 1 => e.predictor.embeds[g](codes[g + 1])[d]);
  }

  lemma NextAt(e: Engine, prompt: Prompt, codes: Codes, t: nat, d: nat)
    requires Sized(e, prompt) && |codes| == CodebooksOf(e) && d < e.hidden
    requires t < |prompt.trailing| ==> |prompt.trailing[t]| == e.hidden
    ensures NextEmbedding(e, prompt, codes, t)[d]
         == EmbedSum(e, prompt, codes, |codes|)[d]
            + (if t < |prompt.trailing| then prompt.trailing[t][d] else prompt.pad[d])
  {
    hide EmbedSum;
  }

  lemma SizedText(e: Engine, prompt: Prompt)
    requires Sized(e, prompt)
    ensures |prompt.pad| == e.hidden && forall t: nat | t < |prompt.trailing| :: |prompt.trailing[t]| == e.hidden
  {
  }

  /** What one acoustic code adds to the next embedding is its row of its own table: another code g + 1
      changes each coordinate by the difference of the two rows of table g. */
  lemma LaterCodeAdds(e: Engine, prompt: Prompt, codes: Codes, t: nat, g: nat, c: int, d: nat)
    requires Sized(e, prompt) && |codes| == CodebooksOf(e) && g < |codes| - 1 && d < e.hidden
    ensures d < |e.predictor.embeds[g](c)| && d < |e.predictor.embeds[g](codes[g + 1])|
    ensures NextEmbedding(e, prompt, codes[g + 1 := c], t)[d] - NextEmbedding(e, prompt, codes, t)[d]
         == e.predictor.embeds[g](c)[d] - e.predictor.embeds[g](codes[g + 1])[d]
  {
    hide NextEmbedding;
    assert |EmbedRow(e.predictor.embeds[g], c)| == e.hidden;
    assert |EmbedRow(e.predictor.embeds[g], codes[g + 1])| == e.hidden;
    var col := ColumnOf(e, prompt, codes, d);
    var other := ColumnOf(e, prompt, codes[g + 1 := c], d);
    assert other == col[g := other[g]];
    TotalUpdate(col, g, other[g]);
  }

  /** The same for code 0 and the talker's table. */
  lemma FirstCodeAdds(e: Engine, prompt: Prompt, codes: Codes, t: nat, c: int, d: nat)
    requires Sized(e, prompt) && |codes| == CodebooksOf(e) && d < e.hidden
    ensures d < |e.predictor.talkerEmbed(c)| && d < |e.predictor.talkerEmbed(codes[0])|
    ensures NextEmbedding(e, prompt, codes[0 := c], t)[d] - NextEmbedding(e, prompt, codes, t)[d]
         == e.predictor.talkerEmbed(c)[d] - e.predictor.talkerEmbed(codes[0])[d]
  {
    hide NextEmbedding;
    assert |EmbedRow(e.predictor.talkerEmbed, c)| == e.hidden;
    assert |EmbedRow(e.predictor.talkerEmbed, codes[0])| == e.hidden;
    var col := ColumnOf(e, prompt, codes, d);
    var other := ColumnOf(e, prompt, codes[0 := c], d);
    assert other == col;
  }

  /** And with nothing to add, what is left is the text: the trailing row while it lasts, then the
      padding. */
  lemma OverlayIsLeft(e: Engine, prompt: Prompt, codes: Codes, t: nat)
    requires Sized(e, prompt) && |codes| == CodebooksOf(e)
    requires IsZero(e.predictor.talkerEmbed(codes[0]))
    requires forall g | 0 <= g < |codes| - 1 :: IsZero(e.predictor.embeds[g](codes[g + 1]))
    ensures NextEmbedding(e, prompt, codes, t) == if t < |prompt.trailing| then prompt.trailing[t] else prompt.pad
  {
    hide NextEmbedding;
    assert |EmbedRow(e.predictor.talkerEmbed, codes[0])| == e.hidden;
    forall d | 0 <= d < e.hidden
      ensures NextEmbedding(e, prompt, codes, t)[d]
           == (if t < |prompt.trailing| then prompt.trailing[t] else prompt.pad)[d] {
      var col := ColumnOf(e, prompt, codes, d);
      TotalZero(col);
    }
  }

  function Firsts(frames: seq<Codes>, K: nat): (r: seq<int>)
    requires S.Rectangular(frames, K) && K >= 1
    ensures |r| == |frames|
  {
    seq(|frames|, t requires 0 <= t < |frames| => frames[t][0])
  }

  /** The first Philox subsequence of frame t. */
  function Subsequence(K: nat, t: nat): nat { K * t }

  /** The run that follows the given frames. `room` and `frameRoom` are the row counts of the
      talker's and the predictor's caches. */
  ghost function Generated(e: Engine, prompt: Prompt, room: nat, frameRoom: nat, maxNew: nat, frames: seq<Codes>): (r: Run)
    requires Sized(e, prompt) && S.Rectangular(frames, CodebooksOf(e))
    ensures S.Rectangular(r.frames, CodebooksOf(e)) && frames <= r.frames
    decreases maxNew - |frames|
  {
    var step, K := |frames|, CodebooksOf(e);
    if step >= maxNew then Run(Finished, frames)
    else if e.cancel(step) then Run(Stopped, frames)
    else if |prompt.rows| + step > room then Run(Failed, frames)
    else
      var out := Forward(e.talker, Fed(e, prompt, frames));
      var c0 := e.sample(out.logits, Firsts(frames, K), Subsequence(K, step));
      if c0 < 0 then Run(Failed, frames)
      else if c0 == e.eos then Run(Finished, frames)
      else if K > frameRoom then Run(Failed, frames)
      else match P.Frame(e.predictor, out.hidden, [c0], Subsequence(K, step))
        case None => Run(Failed, frames)
        case Some(codes) => Generated(e, prompt, room, frameRoom, maxNew, frames + [codes])
  }

  /** Position |prompt| + t of what the talker is fed is made of frame t and its overlay, whatever
      comes later. */
  lemma {:induction false} FedAt(e: Engine, prompt: Prompt, frames: seq<Codes>, t: nat)
    requires Sized(e, prompt) && S.Rectangular(frames, CodebooksOf(e)) && t < |frames|
    ensures Fed(e, prompt, frames)[|prompt.rows| + t] == NextEmbedding(e, prompt, frames[t], t)
  {
    hide NextEmbedding, Sized;
    var n := |frames| - 1;
    if t < n { FedAt(e, prompt, frames[..n], t); }
  }

  lemma {:induction false} FedStarts(e: Engine, prompt: Prompt, frames: seq<Codes>)
    requires Sized(e, prompt) && S.Rectangular(frames, CodebooksOf(e))
    ensures Fed(e, prompt, frames)[..|prompt.rows|] == prompt.rows
  {
    hide NextEmbedding, Sized;
    if frames != [] {
      var before := frames[..|frames| - 1];
      FedStarts(e, prompt, before);
      assert Fed(e, prompt, frames)[..|prompt.rows|] == Fed(e, prompt, before)[..|prompt.rows|];
    }
  }

  /** Each step of a run is decided by the frames before it alone. */
  ghost predicate StepOk(e: Engine, prompt: Prompt, room: nat, frames: seq<Codes>, t: nat)
    requires Sized(e, prompt) && S.Rectangular(frames, CodebooksOf(e)) && t < |frames|
  {
    var before := frames[..t];
    var out := Forward(e.talker, Fed(e, prompt, before));
    var c0 := e.sample(out.logits, Firsts(before, CodebooksOf(e)), Subsequence(CodebooksOf(e), t));
    && !e.cancel(t) && |prompt.rows| + t <= room && 0 <= c0 != e.eos
    && P.Frame(e.predictor, out.hidden, [c0], Subsequence(CodebooksOf(e), t)) == Some(frames[t])
  }

  /** Over whole runs: every frame came from a step of its own, there are at most maxNew of them, and
      one that finished early met the end-of-speech code. */
  lemma {:induction false} EveryStep(e: Engine, prompt: Prompt, room: nat, frameRoom: nat, maxNew: nat, frames: seq<Codes>)
    requires Sized(e, prompt) && S.Rectangular(frames, CodebooksOf(e)) && |frames| <= maxNew
    ensures var r := Generated(e, prompt, room, frameRoom, maxNew, frames);
            && |r.frames| <= maxNew
            && (forall t | |frames| <= t < |r.frames| :: StepOk(e, prompt, room, r.frames, t))
            && (r.status == Finished && |r.frames| < maxNew ==>
                  e.eos == e.sample(Forward(e.talker, Fed(e, prompt, r.frames)).logits, Firsts(r.frames, CodebooksOf(e)),
                                    Subsequence(CodebooksOf(e), |r.frames|)))
    decreases maxNew - |frames|
  {
    hide P.Frame, Fed, Subsequence, Firsts, Forward, Sized;
    if |frames| < maxNew {
      GeneratedStep(e, prompt, room, frameRoom, maxNew, frames);
      var r := Generated(e, prompt, room, frameRoom, maxNew, frames);
      if |r.frames| > |frames| {
        var codes := r.frames[|frames|];
        assert frames + [codes] <= r.frames;
        EveryStep(e, prompt, room, frameRoom, maxNew, frames + [codes]);
        assert r.frames[..|frames|] == frames;
      }
    }
  }

  /** A step spelled out: frame t of a run is what the predictor makes of the talker's hidden state and
      of the sample drawn from the talker's logits, with the codebook-0 codes so far as history and
      subsequence K * t. */
  lemma StepSpelled(e: Engine, prompt: Prompt, room: nat, frameRoom: nat, maxNew: nat, t: nat) returns (history: seq<int>)
    requires Sized(e, prompt) && t < |Generated(e, prompt, room, frameRoom, maxNew, []).frames|
    ensures var frames := Generated(e, prompt, room, frameRoom, maxNew, []).frames;
            && |history| == t && forall i | 0 <= i < t :: frames[i] != [] && history[i] == frames[i][0]
    ensures var frames := Generated(e, prompt, room, frameRoom, maxNew, []).frames;
            var out := Forward(e.talker, Fed(e, prompt, frames[..t]));
            var K := |e.predictor.heads| + 1;
            && !e.cancel(t) && |prompt.rows| + t <= room && t < maxNew && |frames[t]| == K
            && 0 <= frames[t][0] == e.sample(out.logits, history, K * t) != e.eos
            && P.Frame(e.predictor, out.hidden, [frames[t][0]], K * t) == Some(frames[t])
  {
    hide Fed, Generated, Forward, Sized, P.Frame;
    EveryStep(e, prompt, room, frameRoom, maxNew, []);
    var frames := Generated(e, prompt, room, frameRoom, maxNew, []).frames;
    assert StepOk(e, prompt, room, frames, t);
    history := Firsts(frames[..t], CodebooksOf(e));
  }

  /** Why a run ends, checked in this order: enough frames, a cancelled poll, no room left in the
      talker's cache, no candidate, the end code, a frame without codes. */
  lemma {:induction false} RunEnds(e: Engine, prompt: Prompt, room: nat, frameRoom: nat, maxNew: nat, frames: seq<Codes>)
    returns (history: seq<int>)
    requires Sized(e, prompt) && S.Rectangular(frames, CodebooksOf(e)) && |frames| <= maxNew
    ensures var r := Generated(e, prompt, room, frameRoom, maxNew, frames);
            && |history| == |r.frames| && forall i | 0 <= i < |history| :: r.frames[i] != [] && history[i] == r.frames[i][0]
    ensures var r := Generated(e, prompt, room, frameRoom, maxNew, frames);
            var out, K, n := Forward(e.talker, Fed(e, prompt, r.frames)), |e.predictor.heads| + 1, |r.frames|;
            var c0 := e.sample(out.logits, history, K * n);
            if n >= maxNew then n == maxNew && r.status == Finished
            else if e.cancel(n) then r.status == Stopped
            else if |prompt.rows| + n > room || c0 < 0 then r.status == Failed
            else if c0 == e.eos then r.status == Finished
            else r.status == Failed && (K > frameRoom || P.Frame(e.predictor, out.hidden, [c0], K * n).None?)
    decreases maxNew - |frames|
  {
    hide P.Frame, Fed, Forward, Sized;
    history := Firsts(frames, CodebooksOf(e));
    if |frames| < maxNew {
      GeneratedStep(e, prompt, room, frameRoom, maxNew, frames);
      var r := Generated(e, prompt, room, frameRoom, maxNew, frames);
      if |r.frames| > |frames| {
        var codes := r.frames[|frames|];
        assert frames + [codes] <= r.frames;
        history := RunEnds(e, prompt, room, frameRoom, maxNew, frames + [codes]);
      }
    }
  }

  /** The codebook-0 sampler answers nothing in [lo, hi) but the end-of-speech code. */
  ghost predicate Avoids(e: Engine, lo: int, hi: int) {
    forall logits: Vec, history: seq<int>, s: int ::
      var c := e.sample(logits, history, s); !(lo <= c < hi) || c == e.eos
  }

  /** Then over whole runs no frame carries a code of that range in codebook 0: the only reserved
      code a sampler may answer ends the run instead. */
  lemma ReservedNeverGenerated(e: Engine, prompt: Prompt, room: nat, frameRoom: nat, maxNew: nat, lo: int, hi: int, t: nat)
    requires Sized(e, prompt) && Avoids(e, lo, hi)
    requires t < |Generated(e, prompt, room, frameRoom, maxNew, []).frames|
    ensures var c0 := Generated(e, prompt, room, frameRoom, maxNew, []).frames[t][0];
            c0 >= 0 && c0 != e.eos && !(lo <= c0 < hi)
  {
    hide Fed, Generated, Forward, Subsequence, Firsts, Sized, P.Frame;
    EveryStep(e, prompt, room, frameRoom, maxNew, []);
    var frames := Generated(e, prompt, room, frameRoom, maxNew, []).frames;
    assert StepOk(e, prompt, room, frames, t);
  }

  /** Sample g of frame t (0 for codebook 0, g for acoustic codebook g) has a subsequence of its
      own: no two samples of a run, in whatever frames, draw the same Philox block. */
  lemma SamplesDrawApart(seed: int, K: nat, t: nat, g: nat, u: nat, h: nat)
    requires -0x8000_0000_0000_0000 <= seed < 0x8000_0000_0000_0000
    requires g < K && h < K && (t != u || g != h)
    requires 0 <= K * t + g < 0x8000_0000_0000_0000 && 0 <= K * u + h < 0x8000_0000_0000_0000
    ensures Philox.DrawBlock(seed, K * t + g, 0) != Philox.DrawBlock(seed, K * u + h, 0)
  {
    hide Philox.DrawBlock;
    assert Subsequence(K, t) + g != Subsequence(K, u) + h by {
      if t < u { LaterFrames(K, t, u); }
      if u < t { LaterFrames(K, u, t); }
    }
    Philox.DrawsDiffer(seed, Subsequence(K, t) + g, Subsequence(K, u) + h, 0);
  }

  lemma LaterFrames(K: nat, t: nat, u: nat)
    requires t < u
    ensures Subsequence(K, t) + K <= Subsequence(K, u)
  {
    Bits.Times(K, t);
    Bits.Monotone(t + 1, u, K);
  }

  // ----- one talker step ------------------------------------------------------------------

  /** Step 0 prefills; later steps replay the executor while the position fits its window, and
      rebuild the graph after that. */
  method TalkerStep(e: Engine, kv: KvCache, table: seq<seq<bool>>, execEnabled: bool, step: nat, prompt: Prompt,
                    next: Vec, nTx: nat, ghost past: seq<Vec>) returns (ok: bool, out: Output, n: nat)
    requires TableOk(table) && |table| <= kv.maxSeqLen && prompt.rows != []
    requires if step == 0 then kv.Shape(|e.talker.layers|) else kv.Live(e.talker, past) && nTx == |past|
    modifies kv`rows, kv`curLen
    ensures var xs := if step == 0 then prompt.rows else past + [next];
            && ok == (|xs| <= kv.maxSeqLen)
            && (ok ==> out == Forward(e.talker, xs) && kv.Live(e.talker, xs) && n == kv.curLen)
            && (!ok ==> kv.Shape(|e.talker.layers|) && kv.curLen <= kv.maxSeqLen)
  {
    hide RowsUpTo, Forward;
    if step == 0 {
      ok, out := Prefill(e.talker, kv, prompt.rows);
      n := |prompt.rows|;
    } else if execEnabled && nTx < |table| {
      out := ExecDecode(e.talker, kv, table, next, nTx, past);
      ok, n := true, nTx + 1;
    } else {
      ok, out := Decode(e.talker, kv, next, past);
      n := nTx + 1;
    }
  }

  /** The codes of the frame, by whichever predictor is enabled. */
  method PredictFrame(e: Engine, pkv: KvCache, schedule: P.Schedule, cpExec: bool, hidden: Vec, c0: int, base: int)
    returns (codes: Option<Codes>)
    requires P.Wired(e.predictor) && pkv.Shape(|e.predictor.model.layers|)
    requires P.ScheduleOk(schedule, |e.predictor.heads|)
    modifies pkv`rows, pkv`curLen
    ensures pkv.Shape(|e.predictor.model.layers|)
    ensures codes == if CodebooksOf(e) > pkv.maxSeqLen then None else P.Frame(e.predictor, hidden, [c0], base)
  {
    if cpExec {
      codes := P.ExecFrame(e.predictor, pkv, schedule, hidden, c0, base);
    } else {
      codes := P.LegacyFrame(e.predictor, pkv, hidden, c0, base);
    }
  }

  /** The next embedding: a zeroed buffer to which every codebook's row and the overlay are added. */
  method BuildNext(e: Engine, prompt: Prompt, codes: Codes, step: nat) returns (next: Vec)
    requires Sized(e, prompt) && |codes| == CodebooksOf(e)
    ensures next == NextEmbedding(e, prompt, codes, step)
  {
    var zero: Vec := seq(e.hidden, _ => 0.0);
    next := Plus(zero, EmbedRow(e.predictor.talkerEmbed, codes[0]));
    assert next == EmbedRow(e.predictor.talkerEmbed, codes[0]);
    for g := 0 to |codes| - 1
      invariant next == EmbedSum(e, prompt, codes, g + 1)
    {
      next := Plus(next, EmbedRow(e.predictor.embeds[g], codes[g + 1]));
    }
    next := Plus(next, if step < |prompt.trailing| then prompt.trailing[step] else prompt.pad);
  }

  // ----- the audio side -------------------------------------------------------------------

  datatype Framing = Framing(chunk: int, leftCtx: int, firstChunk: int)

  /** What streaming a run's frames does to the client. */
  function StreamOf(c: S.Codec, frames: seq<Codes>, K: nat, f: Framing, blocks: nat, calls: seq<seq<S.Sample>>,
                    accepts: seq<seq<S.Sample>> -> bool): S.Emission
    requires S.Rectangular(frames, K)
  {
    var cap := S.AtLeast(f.chunk, 1);
    R.Streamed(c, frames, K, S.AtLeast(f.leftCtx, 0), S.FirstSize(cap, f.firstChunk), cap, blocks, calls, accepts)
  }

  function StreamStatus(e: S.Emission): Status {
    if e.ok then Finished else if e.cancelled then Stopped else Failed
  }

  ghost predicate StreamReady(stream: S.DecoderStream, K: nat, f: Framing)
    reads stream
  {
    && stream.Valid()
    && var cap := S.AtLeast(f.chunk, 1);
       stream.Settings() == (K, cap, S.AtLeast(f.leftCtx, 0), S.FirstSize(cap, f.firstChunk))
  }

  /** Pushing frame t of a run whose frames are `all`: the run's stream goes on from the new block
      count, or has ended as this push ended. */
  method PushOne(c: S.Codec, stream: S.DecoderStream, sink: S.Sink, codes: Codes, K: nat, f: Framing,
                 ghost all: seq<Codes>) returns (ok: bool)
    requires StreamReady(stream, K, f) && S.Rectangular(all, K)
    requires |stream.frames| < |all| && stream.frames == all[..|stream.frames|] && all[|stream.frames|] == codes
    modifies stream, sink
    ensures var was := old(StreamOf(c, all, K, f, stream.blocks, sink.calls, sink.accepts));
            && (ok ==> StreamOf(c, all, K, f, stream.blocks, sink.calls, sink.accepts) == was)
            && (!ok ==> was == S.Emission(false, sink.calls, stream.cancelled))
    ensures ok ==> StreamReady(stream, K, f) && stream.frames == old(stream.frames) + [codes]
  {
    hide R.Streamed, S.Block, S.Emit, S.Size, S.StartOf;
    ghost var cap, t := S.AtLeast(f.chunk, 1), |stream.frames|;
    ghost var first, was, n := S.FirstSize(cap, f.firstChunk), sink.calls, stream.blocks;
    assert all[..t + 1] == all[..t] + [all[t]];
    ok := stream.PushFrame(c, codes, sink);
    if S.StartOf(first, cap, n) + S.Size(first, cap, n) == t + 1 {
      R.EmittedBlock(c, all, t + 1, K, S.AtLeast(f.leftCtx, 0), first, cap, n, was, sink.accepts);
    }
  }

  method FlushAll(c: S.Codec, stream: S.DecoderStream, sink: S.Sink, K: nat, f: Framing) returns (ok: bool)
    requires StreamReady(stream, K, f)
    modifies stream, sink
    ensures S.Rectangular(stream.frames, K) && stream.frames == old(stream.frames)
    ensures S.Emission(ok, sink.calls, stream.cancelled)
         == old(StreamOf(c, stream.frames, K, f, stream.blocks, sink.calls, sink.accepts))
  {
    hide R.Streamed, S.Block, S.Emit, S.Size, S.StartOf;
    ghost var cap := S.AtLeast(f.chunk, 1);
    R.LastBlock(c, stream.frames, K, S.AtLeast(f.leftCtx, 0), S.FirstSize(cap, f.firstChunk), cap, stream.blocks,
                sink.calls, sink.accepts);
    ok := stream.Flush(c, sink);
  }

  // ----- the loop -------------------------------------------------------------------------

  lemma GeneratedStep(e: Engine, prompt: Prompt, room: nat, frameRoom: nat, maxNew: nat, frames: seq<Codes>)
    requires Sized(e, prompt) && S.Rectangular(frames, CodebooksOf(e)) && |frames| < maxNew
    ensures var step, K := |frames|, CodebooksOf(e);
            var rest := Generated(e, prompt, room, frameRoom, maxNew, frames);
            if e.cancel(step) then rest == Run(Stopped, frames)
            else if |prompt.rows| + step > room then rest == Run(Failed, frames)
            else
              var out := Forward(e.talker, Fed(e, prompt, frames));
              var c0 := e.sample(out.logits, Firsts(frames, K), Subsequence(K, step));
              if c0 < 0 then rest == Run(Failed, frames)
              else if c0 == e.eos then rest == Run(Finished, frames)
              else
                var codes := if K > frameRoom then None
                             else P.Frame(e.predictor, out.hidden, [c0], Subsequence(K, step));
                if codes.None? then rest == Run(Failed, frames)
                else rest == Generated(e, prompt, room, frameRoom, maxNew, frames + [codes.value])
  {
    hide P.Frame, Fed, Subsequence, Firsts;
  }

  lemma FedStep(e: Engine, prompt: Prompt, frames: seq<Codes>)
    requires Sized(e, prompt) && S.Rectangular(frames, CodebooksOf(e)) && frames != []
    ensures var t := |frames| - 1;
            Fed(e, prompt, frames) == Fed(e, prompt, frames[..t]) + [NextEmbedding(e, prompt, frames[t], t)]
  {
  }

  lemma FirstsStep(frames: seq<Codes>, codes: Codes, K: nat)
    requires S.Rectangular(frames, K) && |codes| == K >= 1
    ensures Firsts(frames + [codes], K) == Firsts(frames, K) + [codes[0]]
  {
  }

  lemma NextSubsequence(K: nat, t: nat)
    requires K >= 1
    ensures Subsequence(K, 0) == 0 && Subsequence(K, t) + 1 + (K - 1) == Subsequence(K, t + 1)
  {
  }

  /** What the talker's cache holds before the given step. */
  ghost predicate TalkerReady(e: Engine, prompt: Prompt, kv: KvCache, frames: seq<Codes>, next: Vec, nTx: nat)
    requires Sized(e, prompt) && S.Rectangular(frames, CodebooksOf(e))
    reads kv
  {
    if frames == [] then kv.Shape(|e.talker.layers|)
    else
      var t := |frames| - 1;
      && kv.Live(e.talker, Fed(e, prompt, frames[..t])) && nTx == kv.curLen
      && next == NextEmbedding(e, prompt, frames[t], t)
  }

  /** The talker step and the first codebook of one frame. */
  method FirstCode(e: Engine, prompt: Prompt, kv: KvCache, table: seq<seq<bool>>, execEnabled: bool,
                   next: Vec, nTx: nat, history: seq<int>, subseq: int, ghost frames: seq<Codes>)
    returns (ok: bool, out: Output, c0: int, n: nat)
    requires Sized(e, prompt) && S.Rectangular(frames, CodebooksOf(e))
    requires TableOk(table) && |table| <= kv.maxSeqLen && kv.curLen <= kv.maxSeqLen
    requires TalkerReady(e, prompt, kv, frames, next, nTx)
    requires |history| == |frames|
    modifies kv`rows, kv`curLen
    ensures kv.Shape(|e.talker.layers|) && kv.curLen <= kv.maxSeqLen
    ensures ok == (|prompt.rows| + |frames| <= kv.maxSeqLen)
    ensures ok ==> kv.Live(e.talker, Fed(e, prompt, frames)) && n == kv.curLen
    ensures ok ==> out == Forward(e.talker, Fed(e, prompt, frames)) && c0 == e.sample(out.logits, history, subseq)
  {
    hide Fed, Forward, RowsUpTo, NextEmbedding;
    ghost var past := [];
    if frames != [] {
      FedStep(e, prompt, frames);
      past := Fed(e, prompt, frames[..|frames| - 1]);
    } else {
      FedNothing(e, prompt);
    }
    ok, out, n := TalkerStep(e, kv, table, execEnabled, |history|, prompt, next, nTx, past);
    c0 := e.sample(out.logits, history, subseq);
  }

  lemma FedNothing(e: Engine, prompt: Prompt)
    requires Sized(e, prompt)
    ensures Fed(e, prompt, []) == prompt.rows
  {
  }

  lemma SizedIsWired(e: Engine, prompt: Prompt)
    requires Sized(e, prompt)
    ensures P.Wired(e.predictor) && CodebooksOf(e) == |e.predictor.heads| + 1
  {
  }

  /** One step of the loop up to the codes of its frame: either the run ends here, or it goes on
      with the frame. The talker's cache then holds everything fed so far. */
  method NextFrame(e: Engine, prompt: Prompt, maxNew: nat,
                   kv: KvCache, table: seq<seq<bool>>, execEnabled: bool,
                   pkv: KvCache, schedule: P.Schedule, cpExec: bool,
                   next: Vec, nTx: nat, history: seq<int>, subseq: int, ghost frames: seq<Codes>)
    returns (end: Option<Status>, codes: Codes, n: nat, counter: int)
    requires Sized(e, prompt) && kv != pkv
    requires S.Rectangular(frames, CodebooksOf(e)) && |frames| < maxNew
    requires TalkerReady(e, prompt, kv, frames, next, nTx) && kv.curLen <= kv.maxSeqLen
    requires pkv.Shape(|e.predictor.model.layers|)
    requires TableOk(table) && |table| <= kv.maxSeqLen && P.ScheduleOk(schedule, |e.predictor.heads|)
    requires history == Firsts(frames, CodebooksOf(e)) && subseq == Subsequence(CodebooksOf(e), |frames|)
    modifies kv`rows, kv`curLen, pkv`rows, pkv`curLen
    ensures kv.curLen <= kv.maxSeqLen && pkv.Shape(|e.predictor.model.layers|)
    ensures var rest := Generated(e, prompt, kv.maxSeqLen, pkv.maxSeqLen, maxNew, frames);
            && (end.Some? ==> rest == Run(end.value, frames))
            && (end.None? ==>
                 && |codes| == CodebooksOf(e) && S.Rectangular(frames + [codes], CodebooksOf(e))
                 && rest == Generated(e, prompt, kv.maxSeqLen, pkv.maxSeqLen, maxNew, frames + [codes]))
    ensures end.None? ==> kv.Live(e.talker, Fed(e, prompt, frames)) && n == kv.curLen
    ensures end.None? ==> counter == Subsequence(CodebooksOf(e), |frames| + 1)
  {
    hide *;
    SizedIsWired(e, prompt);
    var step, K := |history|, CodebooksOf(e);
    codes, n, counter := [], nTx, subseq;
    GeneratedStep(e, prompt, kv.maxSeqLen, pkv.maxSeqLen, maxNew, frames);
    if e.cancel(step) { return Some(Stopped), codes, n, counter; }
    var ok, out, c0;
    ok, out, c0, n := FirstCode(e, prompt, kv, table, execEnabled, next, nTx, history, subseq, frames);
    if !ok { return Some(Failed), codes, n, counter; }
    counter := counter + 1;
    if c0 < 0 { return Some(Failed), codes, n, counter; }
    if c0 == e.eos { return Some(Finished), codes, n, counter; }
    var predicted := PredictFrame(e, pkv, schedule, cpExec, out.hidden, c0, counter - 1);
    if predicted.None? { return Some(Failed), codes, n, counter; }
    NextSubsequence(K, step);
    counter := counter + (K - 1);
    Snoc(frames, predicted.value, K);
    return None, predicted.value, n, counter;
  }

  /** The generation loop. Whatever the caches held before, whichever of the two talkers and
      predictors are enabled and however wide the executor's window is, the frames are those of the
      reference run; a streaming client sees the stream of those frames or the reason it ended. */
  method GenerateFrames(e: Engine, prompt: Prompt, maxNew: nat,
                        kv: KvCache, table: seq<seq<bool>>, execEnabled: bool,
                        pkv: KvCache, schedule: P.Schedule, cpExec: bool,
                        streaming: bool, c: S.Codec, f: Framing, stream: S.DecoderStream, sink: S.Sink)
    returns (status: Status, frames: seq<Codes>, ghost ended: bool)
    requires Sized(e, prompt) && kv != pkv
    requires kv.Shape(|e.talker.layers|) && pkv.Shape(|e.predictor.model.layers|) && kv.curLen <= kv.maxSeqLen
    requires TableOk(table) && |table| <= kv.maxSeqLen && P.ScheduleOk(schedule, |e.predictor.heads|)
    requires streaming ==> StreamReady(stream, CodebooksOf(e), f) && stream.frames == [] && stream.blocks == 0
    modifies kv`rows, kv`curLen, pkv`rows, pkv`curLen, stream, sink
    ensures kv.curLen <= kv.maxSeqLen
    ensures var ref := Generated(e, prompt, kv.maxSeqLen, pkv.maxSeqLen, maxNew, []);
            var goal := StreamOf(c, ref.frames, CodebooksOf(e), f, 0, old(sink.calls), sink.accepts);
            && (!ended ==> status == ref.status && frames == ref.frames)
            && (ended ==> streaming && goal == S.Emission(false, sink.calls, stream.cancelled)
                          && status == StreamStatus(goal))
            && (streaming && !ended ==>
                  && StreamReady(stream, CodebooksOf(e), f) && stream.frames == frames
                  && goal == StreamOf(c, frames, CodebooksOf(e), f, stream.blocks, sink.calls, sink.accepts))
            && (!streaming ==> sink.calls == old(sink.calls))
  {
    hide Generated, Fed, Forward, RowsUpTo, NextEmbedding, P.Frame, Firsts, Subsequence, StreamOf, StreamReady,
         P.ScheduleOk, TableOk, Sized, TalkerReady, KvCache.Live, KvCache.Caches, KvCache.Shape, S.Rectangular;
    var K := CodebooksOf(e);
    Nothing(K);
    ghost var ref := Generated(e, prompt, kv.maxSeqLen, pkv.maxSeqLen, maxNew, []);
    ghost var goal := StreamOf(c, ref.frames, K, f, 0, sink.calls, sink.accepts);
    frames, ended := [], false;
    ReadyAtStart(e, prompt, kv);
    NextSubsequence(K, 0);
    var history, subseq, nTx, next := [], 0, 0, [];
    for step := 0 to maxNew
      invariant S.Rectangular(frames, K) && |frames| == step
      invariant ref == Generated(e, prompt, kv.maxSeqLen, pkv.maxSeqLen, maxNew, frames)
      invariant history == Firsts(frames, K) && subseq == Subsequence(K, step)
      invariant TalkerReady(e, prompt, kv, frames, next, nTx) && kv.curLen <= kv.maxSeqLen
      invariant pkv.Shape(|e.predictor.model.layers|)
      invariant streaming ==> StreamReady(stream, K, f) && stream.frames == frames
      invariant streaming ==> goal == StreamOf(c, ref.frames, K, f, stream.blocks, sink.calls, sink.accepts)
      invariant !streaming ==> sink.calls == old(sink.calls)
    {
      var end, codes;
      end, codes, nTx, subseq :=
        NextFrame(e, prompt, maxNew, kv, table, execEnabled, pkv, schedule, cpExec, next, nTx, history, subseq, frames);
      if end.Some? { return end.value, frames, false; }
      ghost var done := frames;
      FirstsStep(frames, codes, K);
      frames, history := frames + [codes], history + [codes[0]];
      if streaming {
        var pushed := PushOne(c, stream, sink, codes, K, f, ref.frames);
        if !pushed {
          return if stream.cancelled then Stopped else Failed, frames, true;
        }
      }
      next := BuildNext(e, prompt, codes, step);
      ReadyAgain(e, prompt, kv, done, codes, next, nTx);
    }
    GeneratedEnd(e, prompt, kv.maxSeqLen, pkv.maxSeqLen, maxNew, frames);
    return Finished, frames, false;
  }

  lemma Nothing(K: nat)
    requires K >= 1
    ensures S.Rectangular([], K) && Firsts([], K) == []
  {
  }

  lemma ReadyAtStart(e: Engine, prompt: Prompt, kv: KvCache)
    requires Sized(e, prompt) && kv.Shape(|e.talker.layers|)
    ensures S.Rectangular([], CodebooksOf(e)) && TalkerReady(e, prompt, kv, [], [], 0)
  {
  }

  lemma Snoc(frames: seq<Codes>, codes: Codes, K: nat)
    requires S.Rectangular(frames, K) && |codes| == K
    ensures S.Rectangular(frames + [codes], K)
  {
  }

  lemma ReadyAgain(e: Engine, prompt: Prompt, kv: KvCache, frames: seq<Codes>, codes: Codes, next: Vec, nTx: nat)
    requires Sized(e, prompt) && S.Rectangular(frames, CodebooksOf(e)) && |codes| == CodebooksOf(e)
    requires kv.Live(e.talker, Fed(e, prompt, frames)) && nTx == kv.curLen
    requires next == NextEmbedding(e, prompt, codes, |frames|)
    ensures S.Rectangular(frames + [codes], CodebooksOf(e))
    ensures TalkerReady(e, prompt, kv, frames + [codes], next, nTx)
  {
    hide Fed, NextEmbedding, KvCache.Live;
    assert (frames + [codes])[..|frames|] == frames;
  }

  lemma GeneratedEnd(e: Engine, prompt: Prompt, room: nat, frameRoom: nat, maxNew: nat, frames: seq<Codes>)
    requires Sized(e, prompt) && S.Rectangular(frames, CodebooksOf(e)) && |frames| >= maxNew
    ensures Generated(e, prompt, room, frameRoom, maxNew, frames) == Run(Finished, frames)
  {
  }

  // ----- whole syntheses ------------------------------------------------------------------

  lemma {:induction false} RowsAt(frames: seq<Codes>, K: nat, n: nat, k: nat, t: nat)
    requires S.Rectangular(frames, K) && k < n <= K && t < |frames|
    ensures Cell(|frames|, k, t) < |S.Rows(frames, K, n)| && S.Rows(frames, K, n)[Cell(|frames|, k, t)] == frames[t][k]
  {
    hide Scale;
    CellsDiffer(|frames|, n, k, t, k, t);
    S.RowOfRows(frames, K, n, k);
    var start := Scale(k, |frames|);
    assert S.Rows(frames, K, n)[start..start + |frames|][t] == S.Row(frames, K, k)[t];
  }

  lemma RowsExactly(frames: seq<Codes>, K: nat, flat: seq<int>)
    requires S.Rectangular(frames, K) && |flat| == Scale(K, |frames|)
    requires forall k, t | 0 <= k < K && 0 <= t < |frames| ::
               Cell(|frames|, k, t) < |flat| && flat[Cell(|frames|, k, t)] == frames[t][k]
    ensures flat == S.KMajor(frames, K)
  {
    var T := |frames|;
    forall i | 0 <= i < |flat| ensures flat[i] == S.KMajor(frames, K)[i] {
      var k, t := CellAt(T, K, i);
      RowsAt(frames, K, K, k, t);
    }
  }

  /** The frames, frame-major, into the K-major buffer of the buffered decode. */
  method Transpose(frames: seq<Codes>, K: nat) returns (flat: seq<int>)
    requires S.Rectangular(frames, K)
    ensures flat == S.KMajor(frames, K)
  {
    hide Scale, Cell;
    var T := |frames|;
    flat := seq(Scale(K, T), _ => 0);
    for t := 0 to T
      invariant |flat| == Scale(K, T)
      invariant forall k, s | 0 <= k < K && 0 <= s < t ::
                  Cell(T, k, s) < |flat| && flat[Cell(T, k, s)] == frames[s][k]
    {
      for k := 0 to K
        invariant |flat| == Scale(K, T)
        invariant forall j, s | 0 <= j < K && 0 <= s < T && (s < t || (s == t && j < k)) ::
                    Cell(T, j, s) < |flat| && flat[Cell(T, j, s)] == frames[s][j]
      {
        forall j, s | 0 <= j < K && 0 <= s < T
          ensures Cell(T, j, s) < |flat| && (Cell(T, j, s) == Cell(T, k, t) ==> j == k && s == t) {
          CellsDiffer(T, K, j, s, k, t);
        }
        flat := flat[Cell(T, k, t) := frames[t][k]];
      }
    }
    RowsExactly(frames, K, flat);
  }

  /** pipeline_tts_synthesize from the prompt on. Buffered, the audio is the one-shot decode of the
      reference frames; streamed, the client is handed the stream of the reference frames, and when
      the run ends badly all of it but at most the last block. */
  method Synthesize(e: Engine, prompt: Prompt, maxNew: nat,
                    kv: KvCache, table: seq<seq<bool>>, execEnabled: bool,
                    pkv: KvCache, schedule: P.Schedule, cpExec: bool,
                    streaming: bool, c: S.Codec, f: Framing, sink: S.Sink)
    returns (status: Status, audio: seq<S.Sample>)
    requires Sized(e, prompt) && kv != pkv
    requires kv.Shape(|e.talker.layers|) && pkv.Shape(|e.predictor.model.layers|) && kv.curLen <= kv.maxSeqLen
    requires TableOk(table) && |table| <= kv.maxSeqLen && P.ScheduleOk(schedule, |e.predictor.heads|)
    modifies kv`rows, kv`curLen, pkv`rows, pkv`curLen, sink
    ensures var K := CodebooksOf(e);
            var ref := Generated(e, prompt, kv.maxSeqLen, pkv.maxSeqLen, maxNew, []);
            var goal := StreamOf(c, ref.frames, K, f, 0, old(sink.calls), sink.accepts);
            var whole := S.OneShot(c, ref.frames, K, f.chunk, f.leftCtx);
            if streaming then
              && audio == []
              && (status == Finished <==> ref.status == Finished && goal.ok)
              && (ref.status == Finished ==>
                    && sink.calls == goal.calls
                    && status == if goal.ok then Finished else if goal.cancelled then Stopped else Failed)
              && (status == ref.status || (!goal.ok && status == if goal.cancelled then Stopped else Failed))
              && sink.calls <= goal.calls && |goal.calls| <= |sink.calls| + 1
            else
              && sink.calls == old(sink.calls)
              && if ref.status != Finished || ref.frames == [] then status == ref.status && audio == []
                 else audio == whole && status == if whole == [] then Failed else Finished
  {
    var K := CodebooksOf(e);
    Nothing(K);
    hide Generated, StreamOf, StreamReady, Sized, P.ScheduleOk, TableOk, KvCache.Shape, S.Rectangular, S.OneShot, S.KMajor;
    var stream := new S.DecoderStream(K, f.chunk, f.leftCtx, f.firstChunk);
    FreshStream(stream, K, f);
    var frames;
    ghost var ended;
    status, frames, ended := GenerateFrames(e, prompt, maxNew, kv, table, execEnabled, pkv, schedule, cpExec,
                                            streaming, c, f, stream, sink);
    audio := [];
    if streaming && !ended { TailMissing(c, stream, sink, K, f); }
    if status != Finished { return; }
    if streaming {
      var flushed := FlushAll(c, stream, sink, K, f);
      if !flushed { status := if stream.cancelled then Stopped else Failed; }
      return;
    }
    if frames == [] { return; }
    var flat := Transpose(frames, K);
    audio := S.ChunkedDecode(c, flat, K, |frames|, f.chunk, f.leftCtx, frames);
    if audio == [] { status := Failed; }
  }

  /** Between pushes all that is missing of the stream so far is its last, short block. */
  lemma TailMissing(c: S.Codec, stream: S.DecoderStream, sink: S.Sink, K: nat, f: Framing)
    requires StreamReady(stream, K, f)
    ensures S.Rectangular(stream.frames, K)
    ensures var whole := StreamOf(c, stream.frames, K, f, stream.blocks, sink.calls, sink.accepts).calls;
            sink.calls <= whole && |whole| <= |sink.calls| + 1
  {
    hide R.Streamed, S.Block, S.Size, S.StartOf;
    var cap := S.AtLeast(f.chunk, 1);
    R.LastBlock(c, stream.frames, K, S.AtLeast(f.leftCtx, 0), S.FirstSize(cap, f.firstChunk), cap, stream.blocks,
                sink.calls, sink.accepts);
  }

  lemma FreshStream(stream: S.DecoderStream, K: nat, f: Framing)
    requires stream.Valid()
    requires stream.Settings() == (K, S.AtLeast(f.chunk, 1), S.AtLeast(f.leftCtx, 0),
                                   S.FirstSize(S.AtLeast(f.chunk, 1), f.firstChunk))
    ensures StreamReady(stream, K, f)
  {
  }
}
