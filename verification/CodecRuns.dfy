/** Whole utterances: what a streamed synthesis hands to the client, against the one-shot decode
    and against decoding everything at once (src/codec-chunked-decode.h, src/pipeline-tts.cpp). */
module CodecRuns {
  import opened Seqs
  import opened CodecLocality
  import opened CodecGeometry
  import opened Multiples
  import opened CodecStream

  /** The specification of a run: block after block until the frames, the backend or the client
      give out. */
  function Streamed(c: Codec, frames: seq<Frame>, K: nat, left: nat, first: nat, cap: nat, n: nat,
                    calls: seq<seq<Sample>>, accepts: seq<seq<Sample>> -> bool): Emission
    requires Rectangular(frames, K) && 1 <= first <= cap
    decreases |frames| - StartOf(first, cap, n)
  {
    var start := StartOf(first, cap, n);
    if start >= |frames| then Emission(true, calls, false)
    else
      var e := Emit(Block(c, frames, K, left, start, BlockEnd(|frames|, start, Size(first, cap, n))), calls, accepts);
      if e.ok then Streamed(c, frames, K, left, first, cap, n + 1, e.calls, accepts) else e
  }

  // ----- one block of a run ---------------------------------------------------------------

  /** A full block emitted as soon as its last frame arrived is the block of the whole run. */
  lemma EmittedBlock(c: Codec, frames: seq<Frame>, t: nat, K: nat, left: nat, first: nat, cap: nat, n: nat,
                     calls: seq<seq<Sample>>, accepts: seq<seq<Sample>> -> bool)
    requires Rectangular(frames, K) && 1 <= first <= cap && t <= |frames|
    requires StartOf(first, cap, n) + Size(first, cap, n) == t
    ensures Rectangular(frames[..t], K) && StartOf(first, cap, n) <= t
    ensures var e := Emit(Block(c, frames[..t], K, left, StartOf(first, cap, n), t), calls, accepts);
            Streamed(c, frames, K, left, first, cap, n, calls, accepts)
            == if e.ok then Streamed(c, frames, K, left, first, cap, n + 1, e.calls, accepts) else e
  {
    hide Block, Emit;
    assert frames == frames[..t] + frames[t..];
    BlockStable(c, frames[..t], frames[t..], K, left, StartOf(first, cap, n), t);
  }

  /** With a short block left, the run ends by flushing it. */
  lemma LastBlock(c: Codec, frames: seq<Frame>, K: nat, left: nat, first: nat, cap: nat, n: nat,
                  calls: seq<seq<Sample>>, accepts: seq<seq<Sample>> -> bool)
    requires Rectangular(frames, K) && 1 <= first <= cap
    requires StartOf(first, cap, n) <= |frames| < StartOf(first, cap, n) + Size(first, cap, n)
    ensures Streamed(c, frames, K, left, first, cap, n, calls, accepts)
         == if StartOf(first, cap, n) == |frames| then Emission(true, calls, false)
            else Emit(Block(c, frames, K, left, StartOf(first, cap, n), |frames|), calls, accepts)
  {
    hide Block, Emit;
    var e := Emit(Block(c, frames, K, left, StartOf(first, cap, n), |frames|), calls, accepts);
    NextSize(first, cap, n);
    EmissionFields(Block(c, frames, K, left, StartOf(first, cap, n), |frames|), calls, accepts);
    assert Streamed(c, frames, K, left, first, cap, n + 1, e.calls, accepts) == Emission(true, e.calls, false);
  }

  lemma EmissionFields(block: Option<seq<Sample>>, calls: seq<seq<Sample>>, accepts: seq<seq<Sample>> -> bool)
    ensures var e := Emit(block, calls, accepts);
            && (e.ok ==> !e.cancelled && block.Some? && Concat(e.calls) == Concat(calls) + block.value)
            && (!e.ok && !e.cancelled <==> block.None?)
            && Concat(calls) <= Concat(e.calls)
  {
    if block.Some? {
      ConcatSnoc(calls, block.value);
      assert Concat(calls) + [] == Concat(calls);
    }
  }

  /** The first block of a run, from the settings as given: the progressive start when it lies between
      0 and the block size, the block size otherwise; a short utterance is one block. */
  lemma FirstBlock(c: Codec, frames: seq<Frame>, K: nat, chunk: int, leftCtx: int, firstChunk: int,
                   accepts: seq<seq<Sample>> -> bool)
    requires Rectangular(frames, K) && frames != []
    ensures var cap := AtLeast(chunk, 1);
            var n := if 0 < firstChunk < chunk then firstChunk else if chunk < 1 then 1 else chunk;
            var end := if n < |frames| then n else |frames|;
            var e := Emit(Block(c, frames, K, if leftCtx < 0 then 0 else leftCtx, 0, end), [], accepts);
            Streamed(c, frames, K, AtLeast(leftCtx, 0), FirstSize(cap, firstChunk), cap, 0, [], accepts)
            == if e.ok then Streamed(c, frames, K, AtLeast(leftCtx, 0), FirstSize(cap, firstChunk), cap, 1, e.calls, accepts)
               else e
  {
    hide Block, Emit;
  }

  /** The sizes of a progressive run in closed form: the first, then two, eight, thirty-two times as
      many frames and so on, until the block size is reached. */
  lemma {:induction false} SizeClosed(first: nat, cap: nat, n: nat)
    requires 1 <= first <= cap
    ensures Size(first, cap, 0) == first
    ensures var want := Scale(2 * first, Power4(n)); Size(first, cap, n + 1) == if want < cap then want else cap
  {
    FirstSizes(first, cap);
    hide Size, Scale, Power4;
    if n > 0 {
      SizeClosed(first, cap, n - 1);
      NextSize(first, cap, n);
      Quadruple(2 * first, n - 1);
    }
  }

  lemma FirstSizes(first: nat, cap: nat)
    requires 1 <= first <= cap
    ensures Size(first, cap, 0) == first && Size(first, cap, 1) == if 2 * first < cap then 2 * first else cap
    ensures Scale(2 * first, Power4(0)) == 2 * first
  {
  }

  lemma Quadruple(a: nat, n: nat)
    ensures Scale(a, Power4(n + 1)) == 4 * Scale(a, Power4(n))
  {
  }

  function Power4(n: nat): nat { if n == 0 then 1 else 4 * Power4(n - 1) }

  // ----- streaming against one shot -------------------------------------------------------

  /** A finished run delivers the schedule's audio; a run that stops on its own account means the
      backend failed. */
  lemma {:induction false} StreamedAudio(c: Codec, frames: seq<Frame>, K: nat, left: nat, first: nat, cap: nat, n: nat,
                                         calls: seq<seq<Sample>>, accepts: seq<seq<Sample>> -> bool)
    requires Rectangular(frames, K) && 1 <= first <= cap
    ensures var e := Streamed(c, frames, K, left, first, cap, n, calls, accepts);
            var audio := Scheduled(c, frames, K, left, first, cap, n);
            && (e.ok ==> audio.Some? && Concat(e.calls) == Concat(calls) + audio.value)
            && (!e.ok && !e.cancelled ==> audio.None?)
            && (e.ok ==> !e.cancelled)
    decreases |frames| - StartOf(first, cap, n)
  {
    hide Block, Emit, Size;
    var start := StartOf(first, cap, n);
    if start >= |frames| {
      ScheduledEnd(c, frames, K, left, first, cap, n);
      assert Concat(calls) + [] == Concat(calls);
    } else {
      ScheduledStep(c, frames, K, left, first, cap, n);
      var block := Block(c, frames, K, left, start, BlockEnd(|frames|, start, Size(first, cap, n)));
      EmissionFields(block, calls, accepts);
      var e := Emit(block, calls, accepts);
      if e.ok {
        StreamedAudio(c, frames, K, left, first, cap, n + 1, e.calls, accepts);
        var tail := Scheduled(c, frames, K, left, first, cap, n + 1);
        if tail.Some? { assert Concat(calls) + block.value + tail.value == Concat(calls) + (block.value + tail.value); }
      }
    }
  }

  /** A run is cancelled when the client refuses a block, which is then the last it has seen; otherwise
      it has accepted the last block it has seen. */
  lemma {:induction false} StreamedOutcome(c: Codec, frames: seq<Frame>, K: nat, left: nat, first: nat, cap: nat, n: nat,
                                           calls: seq<seq<Sample>>, accepts: seq<seq<Sample>> -> bool)
    requires Rectangular(frames, K) && 1 <= first <= cap
    ensures var e := Streamed(c, frames, K, left, first, cap, n, calls, accepts);
            && calls <= e.calls
            && (e.cancelled ==> !e.ok && |calls| < |e.calls| && !accepts(e.calls))
            && (!e.cancelled && |calls| < |e.calls| ==> accepts(e.calls))
    decreases |frames| - StartOf(first, cap, n)
  {
    hide Block, Size;
    var start := StartOf(first, cap, n);
    if start < |frames| {
      ScheduledStep(c, frames, K, left, first, cap, n);
      var e := Emit(Block(c, frames, K, left, start, BlockEnd(|frames|, start, Size(first, cap, n))), calls, accepts);
      if e.ok {
        StreamedOutcome(c, frames, K, left, first, cap, n + 1, e.calls, accepts);
        var r := Streamed(c, frames, K, left, first, cap, n + 1, e.calls, accepts);
        assert |r.calls| == |e.calls| ==> r.calls == e.calls;
      }
    }
  }

  /** With the progressive start off, for every backend, a finished stream is the one-shot result. */
  lemma StreamIsOneShot(c: Codec, frames: seq<Frame>, K: nat, chunk: int, leftCtx: int, firstChunk: int,
                        accepts: seq<seq<Sample>> -> bool)
    requires Rectangular(frames, K)
    requires firstChunk <= 0 || firstChunk >= AtLeast(chunk, 1)
    ensures var cap := AtLeast(chunk, 1);
            var e := Streamed(c, frames, K, AtLeast(leftCtx, 0), FirstSize(cap, firstChunk), cap, 0, [], accepts);
            && (e.ok ==> Concat(e.calls) == OneShot(c, frames, K, chunk, leftCtx))
            && (!e.ok && !e.cancelled ==> OneShot(c, frames, K, chunk, leftCtx) == [])
  {
    var cap := AtLeast(chunk, 1);
    StreamedAudio(c, frames, K, AtLeast(leftCtx, 0), cap, cap, 0, [], accepts);
  }

  /** A block spelled out: the slice starts with `left` frames of context, or with all there are, and the
      context's 1920 samples a frame are dropped from the answer. */
  lemma BlockSpelled(c: Codec, frames: seq<Frame>, K: nat, left: nat, start: nat, end: nat)
    requires Rectangular(frames, K) && start <= end <= |frames|
    ensures var ctx := if start < left then start else left;
            var wav := c.decode(KMajor(frames[start - ctx..end], K), K, ctx + end - start);
            Block(c, frames, K, left, start, end)
            == if wav == [] then None
               else if |wav| <= ctx * 1920 then Some([]) else Some(wav[ctx * 1920..])
  {
    hide KMajor, Rectangular;
    var ctx := if start < left then start else left;
    assert Context(start, left) == ctx;
    RectangularSlice(frames, K, start - ctx, end);
  }

  /** The backend gives block [start, start + size), cut off at the end of the utterance. */
  ghost predicate GivesBlock(c: Codec, frames: seq<Frame>, K: nat, left: nat, start: nat, size: nat, block: seq<Sample>) {
    && Rectangular(frames, K) && start < |frames|
    && Block(c, frames, K, left, start, if start + size < |frames| then start + size else |frames|) == Some(block)
  }

  lemma {:induction false} ScheduledBlocks(c: Codec, frames: seq<Frame>, K: nat, left: nat, cap: nat, n: nat,
                                           blocks: seq<seq<Sample>>)
    requires Rectangular(frames, K) && cap >= 1 && n <= |blocks| && StartOf(cap, cap, |blocks|) >= |frames|
    requires forall i | n <= i < |blocks| :: GivesBlock(c, frames, K, left, StartOf(cap, cap, i), cap, blocks[i])
    ensures Scheduled(c, frames, K, left, cap, cap, n) == Some(Concat(blocks[n..]))
    decreases |blocks| - n
  {
    hide Block, Scheduled, StartOf, Rectangular, Size, Concat;
    if n == |blocks| {
      ScheduledEnd(c, frames, K, left, cap, cap, n);
      assert blocks[n..] == [];
      NothingConcat();
    } else {
      ScheduledStep(c, frames, K, left, cap, cap, n);
      CapIsFlat(cap, n);
      ScheduledBlocks(c, frames, K, left, cap, n + 1, blocks);
      assert GivesBlock(c, frames, K, left, StartOf(cap, cap, n), cap, blocks[n]);
      assert blocks[n..] == [blocks[n]] + blocks[n + 1..];
      ConcatAppend([blocks[n]], blocks[n + 1..]);
      ConcatSnoc([], blocks[n]);
      NothingConcat();
      assert [] + [blocks[n]] == [blocks[n]] && [] + blocks[n] == blocks[n];
    }
  }

  lemma NothingConcat()
    ensures Concat<Sample>([]) == []
  {
  }

  /** The one-shot result is the blocks [k * chunk, k * chunk + chunk), the last one cut off at the end of
      the utterance, one after the other. */
  lemma OneShotBlocks(c: Codec, frames: seq<Frame>, K: nat, chunk: nat, leftCtx: nat, blocks: seq<seq<Sample>>)
    requires Rectangular(frames, K) && chunk >= 1 && |frames| <= Scale(|blocks|, chunk)
    requires forall k | 0 <= k < |blocks| :: GivesBlock(c, frames, K, leftCtx, Scale(k, chunk), chunk, blocks[k])
    ensures OneShot(c, frames, K, chunk, leftCtx) == Concat(blocks)
  {
    hide Scheduled, StartOf, Rectangular, Scale, GivesBlock, Concat;
    FlatStart(chunk, |blocks|);
    forall i | 0 <= i < |blocks|
      ensures GivesBlock(c, frames, K, leftCtx, StartOf(chunk, chunk, i), chunk, blocks[i]) {
      FlatStart(chunk, i);
    }
    ScheduledBlocks(c, frames, K, leftCtx, chunk, 0, blocks);
    assert blocks[0..] == blocks;
  }

  /** No slice handed to the backend is longer than a full block and its left context. */
  lemma SliceBound(frames: nat, left: nat, first: nat, cap: nat, n: nat)
    requires 1 <= first <= cap && StartOf(first, cap, n) < frames
    ensures var start := StartOf(first, cap, n);
            var end := BlockEnd(frames, start, Size(first, cap, n));
            start < end <= frames && end - (start - Context(start, left)) <= cap + left
  {
  }

  // ----- stitching is exact for local decoders --------------------------------------------

  function Map<A, B>(f: A -> B, xs: seq<A>): (r: seq<B>)
    ensures |r| == |xs| && forall i | 0 <= i < |r| :: r[i] == f(xs[i])
  {
    seq(|xs|, i requires 0 <= i < |xs| => f(xs[i]))
  }

  /** The backend is a chain of causal stages between a per-frame lookup and a per-sample output. */
  ghost predicate IsChain<V(!new)>(c: Codec, K: nat, embed: Frame -> V, stages: seq<Stage<V>>, out: V -> Sample) {
    && StagesOk(stages) && Hop(stages) == HOP
    && forall frames: seq<Frame> | Rectangular(frames, K) ::
         SliceAudio(c, frames, K) == Map(out, Run(stages, Map(embed, frames)))
  }

  /** Every block of a run over N frames is decoded with its whole past, or with as much of it as
      the reach. */
  ghost predicate Covers(reach: nat, left: nat, first: nat, cap: nat, N: nat)
    requires 1 <= first <= cap
  {
    left >= reach || forall n: nat | StartOf(first, cap, n) < N :: StartOf(first, cap, n) <= left
  }

  lemma CoversBlock(reach: nat, left: nat, first: nat, cap: nat, N: nat, n: nat)
    requires 1 <= first <= cap && Covers(reach, left, first, cap, N) && StartOf(first, cap, n) < N
    ensures left >= reach || StartOf(first, cap, n) <= left
  {
  }

  lemma MapSlice<A, B>(f: A -> B, xs: seq<A>, a: nat, b: nat)
    requires a <= b <= |xs|
    ensures Map(f, xs)[a..b] == Map(f, xs[a..b])
  {
  }

  /** Samples [a, b) of a chain's decode. */
  lemma ChainSlice<V(!new)>(c: Codec, K: nat, embed: Frame -> V, stages: seq<Stage<V>>, out: V -> Sample,
                            frames: seq<Frame>, a: nat, b: nat)
    requires IsChain(c, K, embed, stages, out) && Rectangular(frames, K) && a <= b <= |frames|
    ensures var run := Run(stages, Map(embed, frames));
            && a * HOP <= b * HOP <= |SliceAudio(c, frames, K)| == |run| == |frames| * HOP
            && SliceAudio(c, frames, K)[a * HOP..b * HOP] == Map(out, run[a * HOP..b * HOP])
  {
    hide Run, SliceAudio;
    var run := Run(stages, Map(embed, frames));
    MapSlice(out, run, a * HOP, b * HOP);
  }

  /** The same from sample a on. */
  lemma ChainTail<V(!new)>(c: Codec, K: nat, embed: Frame -> V, stages: seq<Stage<V>>, out: V -> Sample,
                           frames: seq<Frame>, a: nat)
    requires IsChain(c, K, embed, stages, out) && Rectangular(frames, K) && a < |frames|
    ensures var run := Run(stages, Map(embed, frames));
            && a * HOP < |SliceAudio(c, frames, K)| && |run| == |frames| * HOP
            && SliceAudio(c, frames, K)[a * HOP..] == Map(out, run[a * HOP..])
  {
    ChainParts(c, K, embed, stages, out);
    hide Run, SliceAudio, IsChain, Map, StagesOk;
    ChainSlice(c, K, embed, stages, out, frames, a, |frames|);
    var audio, run := SliceAudio(c, frames, K), Run(stages, Map(embed, frames));
    assert audio[a * HOP..] == audio[a * HOP..|audio|] && run[a * HOP..] == run[a * HOP..|run|];
  }

  lemma BlockParts(c: Codec, frames: seq<Frame>, K: nat, left: nat, start: nat, end: nat, ctx: nat)
    requires Rectangular(frames, K) && start < end <= |frames| && ctx == Context(start, left)
    requires ctx * HOP < |SliceAudio(c, frames[start - ctx..end], K)|
    ensures Block(c, frames, K, left, start, end) == Some(SliceAudio(c, frames[start - ctx..end], K)[ctx * HOP..])
  {
    hide SliceAudio, Context;
  }

  /** A block of a chain is what its stages make of the slice. */
  lemma BlockOfChain<V(!new)>(c: Codec, K: nat, embed: Frame -> V, stages: seq<Stage<V>>, out: V -> Sample,
                              frames: seq<Frame>, left: nat, start: nat, end: nat)
    requires IsChain(c, K, embed, stages, out) && Rectangular(frames, K) && start < end <= |frames|
    ensures StagesOk(stages)
    ensures Block(c, frames, K, left, start, end)
         == Some(Map(out, ChunkSamples(stages, Map(embed, frames), start, end, Context(start, left))))
  {
    hide *;
    ChainParts(c, K, embed, stages, out);
    var ctx := Context(start, left);
    var part := frames[start - ctx..end];
    RectangularSlice(frames, K, start - ctx, end);
    SamplesAtHop(stages, Map(embed, frames), start, end, ctx);
    MapSlice(embed, frames, start - ctx, end);
    ChainTail(c, K, embed, stages, out, part, ctx);
    BlockParts(c, frames, K, left, start, end, ctx);
  }

  lemma RectangularSlice(frames: seq<Frame>, K: nat, a: nat, b: nat)
    requires Rectangular(frames, K) && a <= b <= |frames|
    ensures Rectangular(frames[a..b], K)
  {
  }

  /** And its part of the whole decode is what they make of everything. */
  lemma PartOfChain<V(!new)>(c: Codec, K: nat, embed: Frame -> V, stages: seq<Stage<V>>, out: V -> Sample,
                             frames: seq<Frame>, start: nat, end: nat)
    requires IsChain(c, K, embed, stages, out) && Rectangular(frames, K) && start < end <= |frames|
    ensures start * HOP <= end * HOP <= |SliceAudio(c, frames, K)| && StagesOk(stages)
    ensures SliceAudio(c, frames, K)[start * HOP..end * HOP]
         == Map(out, WholeSamples(stages, Map(embed, frames), start, end))
  {
    ChainParts(c, K, embed, stages, out);
    hide *;
    SamplesAtHop(stages, Map(embed, frames), start, end, 0);
    ChainSlice(c, K, embed, stages, out, frames, start, end);
  }

  /** The sample positions of a chain with the shipped number of samples per frame. */
  lemma SamplesAtHop<V(!new)>(stages: seq<Stage<V>>, xs: seq<V>, start: nat, end: nat, ctx: nat)
    requires StagesOk(stages) && Hop(stages) == HOP && ctx <= start <= end <= |xs|
    ensures |Run(stages, xs[start - ctx..end])| == (ctx + end - start) * HOP && |Run(stages, xs)| == |xs| * HOP
    ensures ChunkSamples(stages, xs, start, end, ctx) == Run(stages, xs[start - ctx..end])[ctx * HOP..]
    ensures WholeSamples(stages, xs, start, end) == Run(stages, xs)[start * HOP..end * HOP]
  {
    hide Run, Hop, StagesOk;
  }

  lemma ChainParts<V(!new)>(c: Codec, K: nat, embed: Frame -> V, stages: seq<Stage<V>>, out: V -> Sample)
    requires IsChain(c, K, embed, stages, out)
    ensures StagesOk(stages) && Hop(stages) == HOP && forall i | 0 <= i < |stages| :: stages[i].ratio >= 1
  {
    StagesRated(stages);
  }

  /** A block with its context, or with its whole past, is its part of the whole decode. */
  lemma BlockExact<V(!new)>(c: Codec, K: nat, embed: Frame -> V, stages: seq<Stage<V>>, out: V -> Sample,
                            frames: seq<Frame>, left: nat, start: nat, end: nat)
    requires IsChain(c, K, embed, stages, out) && Rectangular(frames, K)
    requires start < end <= |frames| && (left >= Reach(stages) || start <= left)
    ensures start * HOP <= end * HOP <= |SliceAudio(c, frames, K)|
    ensures Block(c, frames, K, left, start, end) == Some(SliceAudio(c, frames, K)[start * HOP..end * HOP])
  {
    hide Reach, Run, SliceAudio, Block, IsChain, StagesOk;
    BlockOfChain(c, K, embed, stages, out, frames, left, start, end);
    PartOfChain(c, K, embed, stages, out, frames, start, end);
    ChunkExact(stages, Map(embed, frames), start, end, Context(start, left));
  }

  lemma {:induction false} ScheduleExact<V(!new)>(c: Codec, K: nat, embed: Frame -> V, stages: seq<Stage<V>>,
                                                  out: V -> Sample, frames: seq<Frame>, left: nat, first: nat, cap: nat, n: nat)
    requires IsChain(c, K, embed, stages, out) && Rectangular(frames, K)
    requires 1 <= first <= cap && Covers(Reach(stages), left, first, cap, |frames|)
    ensures |SliceAudio(c, frames, K)| == |frames| * HOP
    ensures Scheduled(c, frames, K, left, first, cap, n)
         == Some(if StartOf(first, cap, n) >= |frames| then [] else SliceAudio(c, frames, K)[StartOf(first, cap, n) * HOP..])
    decreases |frames| - StartOf(first, cap, n)
  {
    hide *;
    ChainParts(c, K, embed, stages, out);
    AudioLength(c, K, embed, stages, out, frames);
    var start := StartOf(first, cap, n);
    if start >= |frames| {
      ScheduledEnd(c, frames, K, left, first, cap, n);
    } else {
      CoversBlock(Reach(stages), left, first, cap, |frames|, n);
      ScheduledStep(c, frames, K, left, first, cap, n);
      BlockEndInside(|frames|, start, Size(first, cap, n));
      BlockExact(c, K, embed, stages, out, frames, left, start, BlockEnd(|frames|, start, Size(first, cap, n)));
      ScheduleExact(c, K, embed, stages, out, frames, left, first, cap, n + 1);
      JoinParts(SliceAudio(c, frames, K), |frames|, start, Size(first, cap, n));
    }
  }

  lemma BlockEndInside(N: nat, start: nat, size: nat)
    requires start < N && size >= 1
    ensures start < BlockEnd(N, start, size) <= N
  {
  }

  /** A block's samples and those of everything behind it. */
  lemma JoinParts(audio: seq<Sample>, N: nat, start: nat, size: nat)
    requires |audio| == N * HOP && start < N
    ensures start <= BlockEnd(N, start, size) <= N
    ensures Join(Some(audio[start * HOP..BlockEnd(N, start, size) * HOP]),
                 Some(if start + size >= N then [] else audio[(start + size) * HOP..])) == Some(audio[start * HOP..])
  {
    var end := BlockEnd(N, start, size);
    assert audio[start * HOP..] == audio[start * HOP..end * HOP] + audio[end * HOP..];
    if start + size >= N { assert audio[end * HOP..] == []; }
  }

  lemma AudioLength<V(!new)>(c: Codec, K: nat, embed: Frame -> V, stages: seq<Stage<V>>, out: V -> Sample,
                             frames: seq<Frame>)
    requires IsChain(c, K, embed, stages, out) && Rectangular(frames, K)
    ensures |SliceAudio(c, frames, K)| == |frames| * HOP
  {
  }

  /** Whatever the block sizes, a stream whose context covers the chain's reach delivers what
      decoding the whole utterance at once delivers, unless the client stops it; so does the
      one-shot loop. */
  lemma StreamIsWholeDecode<V(!new)>(c: Codec, K: nat, embed: Frame -> V, stages: seq<Stage<V>>, out: V -> Sample,
                                     frames: seq<Frame>, chunk: int, leftCtx: int, firstChunk: int,
                                     accepts: seq<seq<Sample>> -> bool)
    requires IsChain(c, K, embed, stages, out) && Rectangular(frames, K)
    ensures var cap, left := AtLeast(chunk, 1), AtLeast(leftCtx, 0);
            var first := FirstSize(cap, firstChunk);
            var e := Streamed(c, frames, K, left, first, cap, 0, [], accepts);
            Covers(Reach(stages), left, first, cap, |frames|) && !e.cancelled ==>
              e.ok && Concat(e.calls) == SliceAudio(c, frames, K)
    ensures var cap, left := AtLeast(chunk, 1), AtLeast(leftCtx, 0);
            Covers(Reach(stages), left, cap, cap, |frames|) ==>
              OneShot(c, frames, K, chunk, leftCtx) == SliceAudio(c, frames, K)
  {
    hide Reach, Run, Block, SliceAudio, Size, Scheduled, Streamed, IsChain, Covers;
    var cap, left := AtLeast(chunk, 1), AtLeast(leftCtx, 0);
    var first := FirstSize(cap, firstChunk);
    var audio := SliceAudio(c, frames, K);
    StartZero(cap, cap);
    StartZero(first, cap);
    AudioLength(c, K, embed, stages, out, frames);
    assert audio[0..] == audio && (|frames| == 0 ==> audio == []);
    StreamedAudio(c, frames, K, left, first, cap, 0, [], accepts);
    ChainParts(c, K, embed, stages, out);
    if Covers(Reach(stages), left, first, cap, |frames|) {
      ScheduleExact(c, K, embed, stages, out, frames, left, first, cap, 0);
    }
    if Covers(Reach(stages), left, cap, cap, |frames|) {
      ScheduleExact(c, K, embed, stages, out, frames, left, cap, cap, 0);
    }
  }

  // ----- and for no shorter context -------------------------------------------------------

  function CodeOf(f: Frame): int { if f == [] then 0 else f[0] }

  function Level(x: int): Sample { x as real }

  /** The backend whose stages all shift; it listens to codebook 0. */
  ghost function ShiftCodec(gs: seq<Geometry>): Codec
    requires Rated(gs)
  {
    ShiftsOk(gs);
    Codec((codes: seq<int>, K: nat, T: nat) => if T <= |codes| then Map(Level, Run(Shifts(gs), codes[..T])) else [])
  }

  lemma ShiftCodecIsChain(gs: seq<Geometry>, K: nat)
    requires Rated(gs) && GeometryHop(gs) == HOP && K >= 1
    ensures IsChain(ShiftCodec(gs), K, CodeOf, Shifts(gs), Level)
    ensures Reach(Shifts(gs)) == GeometryReach(gs)
  {
    hide Run, Hop, Reach, StageOk, KMajor, Rows, ShiftStage;
    ShiftsOk(gs);
    ShiftGeometry(gs);
    GeometryDetermines(gs, Shifts(gs));
    forall frames: seq<Frame> | Rectangular(frames, K)
      ensures SliceAudio(ShiftCodec(gs), frames, K) == Map(Level, Run(Shifts(gs), Map(CodeOf, frames)))
    {
      FirstRow(frames, K);
    }
  }

  lemma ShiftGeometry(gs: seq<Geometry>)
    requires Rated(gs)
    ensures OfGeometry(Shifts(gs), gs)
  {
  }

  /** A K-major buffer starts with codebook 0. */
  lemma FirstRow(frames: seq<Frame>, K: nat)
    requires Rectangular(frames, K) && K >= 1
    ensures |frames| <= |KMajor(frames, K)| && KMajor(frames, K)[..|frames|] == Map(CodeOf, frames)
  {
    RowOfRows(frames, K, K, 0);
    ScaleOne(|frames|);
  }

  /** An utterance with code 1 in one frame and code 0 elsewhere. */
  function ImpulseFrames(N: nat, K: nat, at: nat): seq<Frame> {
    seq(N, t => Repeat(if t == at then 1 else 0, K))
  }

  lemma ImpulseCodes(N: nat, K: nat, at: nat)
    requires K >= 1
    ensures var frames := ImpulseFrames(N, K, at);
            |frames| == N && Rectangular(frames, K) && Map(CodeOf, frames) == Impulse(N, at)
  {
    var frames := ImpulseFrames(N, K, at);
    forall t | 0 <= t < N ensures |frames[t]| == K && CodeOf(frames[t]) == Impulse(N, at)[t] {
      assert frames[t] == Repeat(if t == at then 1 else 0, K);
    }
  }

  lemma BlockWrong(gs: seq<Geometry>, K: nat, left: nat, start: nat, end: nat, N: nat)
    requires Rated(gs) && GeometryHop(gs) == HOP && K >= 1
    requires left < GeometryReach(gs) && left < start < end <= N
    ensures var c, frames := ShiftCodec(gs), ImpulseFrames(N, K, start - left);
            && |frames| == N && Rectangular(frames, K) && end * HOP <= |SliceAudio(c, frames, K)|
            && Block(c, frames, K, left, start, end) != Some(SliceAudio(c, frames, K)[start * HOP..end * HOP])
  {
    hide Reach, Run, ShiftCodec, ImpulseFrames, GeometryReach, GeometryHop, Shifts, Impulse, SliceAudio, Block, IsChain, StagesOk;
    var c, frames := ShiftCodec(gs), ImpulseFrames(N, K, start - left);
    ImpulseCodes(N, K, start - left);
    ShiftCodecIsChain(gs, K);
    BlockOfChain(c, K, CodeOf, Shifts(gs), Level, frames, left, start, end);
    PartOfChain(c, K, CodeOf, Shifts(gs), Level, frames, start, end);
    ReachIsTight(gs, start, end, left, N);
    var xs := Impulse(N, start - left);
    var alone, among := ChunkSamples(Shifts(gs), xs, start, end, left), WholeSamples(Shifts(gs), xs, start, end);
    if Map(Level, alone) == Map(Level, among) { LevelInjective(alone, among); }
  }

  lemma LevelInjective(a: seq<int>, b: seq<int>)
    requires Map(Level, a) == Map(Level, b)
    ensures a == b
  {
    assert |a| == |Map(Level, a)| == |b|;
    forall i | 0 <= i < |a| ensures a[i] == b[i] { assert Map(Level, a)[i] == Map(Level, b)[i]; }
  }

  lemma StartsGrow(first: nat, cap: nat, n: nat, k: nat)
    requires 1 <= first <= cap && n <= k
    ensures StartOf(first, cap, n) <= StartOf(first, cap, k)
  {
    hide Size;
    if n < k { StartsGrow(first, cap, n, k - 1); }
  }

  /** When a schedule gives the whole decode, each of its blocks gives its part. */
  lemma {:induction false} ScheduleParts<V(!new)>(c: Codec, K: nat, embed: Frame -> V, stages: seq<Stage<V>>, out: V -> Sample,
                                                  frames: seq<Frame>, left: nat, first: nat, cap: nat, n: nat, k: nat)
    requires IsChain(c, K, embed, stages, out) && Rectangular(frames, K) && 1 <= first <= cap
    requires n <= k && StartOf(first, cap, n) <= StartOf(first, cap, k) < |frames|
    requires |SliceAudio(c, frames, K)| == |frames| * HOP
    requires Scheduled(c, frames, K, left, first, cap, n) == Some(SliceAudio(c, frames, K)[StartOf(first, cap, n) * HOP..])
    ensures var start := StartOf(first, cap, k);
            var end := BlockEnd(|frames|, start, Size(first, cap, k));
            Block(c, frames, K, left, start, end) == Some(SliceAudio(c, frames, K)[start * HOP..end * HOP])
    decreases k - n
  {
    hide Block, SliceAudio, Size, StartOf, Scheduled, IsChain;
    var start, audio := StartOf(first, cap, n), SliceAudio(c, frames, K);
    var end := BlockEnd(|frames|, start, Size(first, cap, n));
    ScheduledStep(c, frames, K, left, first, cap, n);
    BlockLength(c, K, embed, stages, out, frames, left, start, end);
    var head, tail := Block(c, frames, K, left, start, end).value, Scheduled(c, frames, K, left, first, cap, n + 1).value;
    CutAt(head, tail, audio, start * HOP, end * HOP);
    if n < k {
      StartsGrow(first, cap, n + 1, k);
      ScheduleParts(c, K, embed, stages, out, frames, left, first, cap, n + 1, k);
    }
  }

  lemma CutAt<T>(head: seq<T>, tail: seq<T>, whole: seq<T>, a: nat, b: nat)
    requires a <= b <= |whole| && |head| == b - a && head + tail == whole[a..]
    ensures head == whole[a..b] && tail == whole[b..]
  {
    assert head == (head + tail)[..|head|] && tail == (head + tail)[|head|..];
  }

  lemma BlockLength<V(!new)>(c: Codec, K: nat, embed: Frame -> V, stages: seq<Stage<V>>, out: V -> Sample,
                             frames: seq<Frame>, left: nat, start: nat, end: nat)
    requires IsChain(c, K, embed, stages, out) && Rectangular(frames, K) && start < end <= |frames|
    ensures var b := Block(c, frames, K, left, start, end); b.Some? && |b.value| == (end - start) * HOP
  {
    hide SliceAudio, IsChain;
    AudioLength(c, K, embed, stages, out, frames[start - Context(start, left)..end]);
  }

  /** For every geometry, block schedule and utterance length whose blocks the context does not
      cover, there are a backend of the geometry and an utterance of that length on which the
      schedule does not give the whole decode. */
  lemma ShortContextFails(gs: seq<Geometry>, K: nat, left: nat, first: nat, cap: nat, N: nat)
    returns (c: Codec, frames: seq<Frame>)
    requires Rated(gs) && GeometryHop(gs) == HOP && K >= 1 && 1 <= first <= cap
    requires !Covers(GeometryReach(gs), left, first, cap, N)
    ensures IsChain(c, K, CodeOf, Shifts(gs), Level) && Rectangular(frames, K) && |frames| == N
    ensures Scheduled(c, frames, K, left, first, cap, 0) != Some(SliceAudio(c, frames, K))
  {
    hide Block, SliceAudio, Size, Scheduled, IsChain, ShiftCodec, ImpulseFrames, GeometryHop, GeometryReach;
    var n: nat :| left < StartOf(first, cap, n) < N;
    var start := StartOf(first, cap, n);
    var end := BlockEnd(N, start, Size(first, cap, n));
    c, frames := ShiftCodec(gs), ImpulseFrames(N, K, start - left);
    ImpulseCodes(N, K, start - left);
    ShiftCodecIsChain(gs, K);
    BlockWrong(gs, K, left, start, end, N);
    AudioLength(c, K, CodeOf, Shifts(gs), Level, frames);
    var audio := SliceAudio(c, frames, K);
    if Scheduled(c, frames, K, left, first, cap, 0) == Some(audio) {
      StartZero(first, cap);
      assert audio[0..] == audio;
      ScheduleParts(c, K, CodeOf, Shifts(gs), Level, frames, left, first, cap, 0, n);
    }
  }

  /** On all decoders of the geometry and all utterances of N frames the schedule gives the whole
      decode. */
  ghost predicate Stitches(gs: seq<Geometry>, K: nat, left: nat, first: nat, cap: nat, N: nat)
    requires 1 <= first <= cap
  {
    forall c: Codec, embed: Frame -> int, stages: seq<Stage<int>>, out: int -> Sample, frames: seq<Frame>
      | OfGeometry(stages, gs) && IsChain(c, K, embed, stages, out) && Rectangular(frames, K) && |frames| == N ::
      Scheduled(c, frames, K, left, first, cap, 0) == Some(SliceAudio(c, frames, K))
  }

  /** When chunked decoding is safe: if and only if the left context is at least the reach of the
      decoder, or no block starts behind it. */
  lemma StitchesExactly(gs: seq<Geometry>, K: nat, left: nat, first: nat, cap: nat, N: nat)
    requires Rated(gs) && GeometryHop(gs) == HOP && K >= 1 && 1 <= first <= cap
    ensures Stitches(gs, K, left, first, cap, N) <==> Covers(GeometryReach(gs), left, first, cap, N)
  {
    hide Block, SliceAudio, Scheduled, IsChain, Covers, GeometryHop, GeometryReach, OfGeometry;
    if Covers(GeometryReach(gs), left, first, cap, N) {
      forall c: Codec, embed: Frame -> int, stages: seq<Stage<int>>, out: int -> Sample, frames: seq<Frame>
        | OfGeometry(stages, gs) && IsChain(c, K, embed, stages, out) && Rectangular(frames, K) && |frames| == N
        ensures Scheduled(c, frames, K, left, first, cap, 0) == Some(SliceAudio(c, frames, K))
      {
        GeometryDetermines(gs, stages);
        ScheduleExact(c, K, embed, stages, out, frames, left, first, cap, 0);
        StartZero(first, cap);
        var audio := SliceAudio(c, frames, K);
        assert audio[0..] == audio && (|frames| == 0 ==> audio == []);
      }
    } else {
      var c, frames := ShortContextFails(gs, K, left, first, cap, N);
      ShiftGeometry(gs);
    }
  }

  /** The same for what is handed out: where the context does not cover the blocks, there are a
      decoder of the geometry and an utterance on which no finished stream delivers the whole
      decode. */
  lemma ShortContextIsHeard(gs: seq<Geometry>, K: nat, chunk: int, leftCtx: int, firstChunk: int, N: nat,
                            accepts: seq<seq<Sample>> -> bool) returns (c: Codec, frames: seq<Frame>)
    requires Rated(gs) && GeometryHop(gs) == HOP && K >= 1
    requires var cap := AtLeast(chunk, 1);
             !Covers(GeometryReach(gs), AtLeast(leftCtx, 0), FirstSize(cap, firstChunk), cap, N)
    ensures IsChain(c, K, CodeOf, Shifts(gs), Level) && Rectangular(frames, K) && |frames| == N
    ensures var cap := AtLeast(chunk, 1);
            var e := Streamed(c, frames, K, AtLeast(leftCtx, 0), FirstSize(cap, firstChunk), cap, 0, [], accepts);
            e.ok ==> Concat(e.calls) != SliceAudio(c, frames, K)
    ensures FirstSize(AtLeast(chunk, 1), firstChunk) == AtLeast(chunk, 1) ==>
              OneShot(c, frames, K, chunk, leftCtx) != SliceAudio(c, frames, K)
  {
    hide Block, SliceAudio, Scheduled, IsChain, GeometryHop, GeometryReach, Streamed;
    var cap, left := AtLeast(chunk, 1), AtLeast(leftCtx, 0);
    var first := FirstSize(cap, firstChunk);
    c, frames := ShortContextFails(gs, K, left, first, cap, N);
    StreamedAudio(c, frames, K, left, first, cap, 0, [], accepts);
    AudioLength(c, K, CodeOf, Shifts(gs), Level, frames);
    var audio := Scheduled(c, frames, K, left, first, cap, 0);
    if audio.Some? { assert Concat<Sample>([]) + audio.value == audio.value; }
  }

  // ----- blocks of one size, and the settings as shipped -----------------------------------

  lemma {:induction false} FlatStart(cap: nat, n: nat)
    requires cap >= 1
    ensures StartOf(cap, cap, n) == Scale(n, cap)
  {
    hide Scale;
    ScaleOne(cap);
    if n > 0 {
      FlatStart(cap, n - 1);
      CapIsFlat(cap, n - 1);
      ScaleAdd(n - 1, 1, cap);
    }
  }

  /** Blocks of one size: the last one starts at the greatest multiple below N. */
  lemma FlatCovers(reach: nat, left: nat, cap: nat, N: nat)
    requires cap >= 1 && N >= 1
    ensures Covers(reach, left, cap, cap, N) <==> left >= reach || Scale((N - 1) / cap, cap) <= left
  {
    hide StartOf;
    var q := (N - 1) / cap;
    assert Scale(q, cap) < N <= Scale(q, cap) + cap;
    FlatStart(cap, q);
    forall n: nat | StartOf(cap, cap, n) < N ensures StartOf(cap, cap, n) <= Scale(q, cap) {
      FlatStart(cap, n);
      MultipleBelow(q, n, cap, N);
    }
  }

  lemma MultipleBelow(q: nat, n: nat, cap: nat, N: nat)
    requires Scale(n, cap) < N <= Scale(q, cap) + cap
    ensures Scale(n, cap) <= Scale(q, cap)
  {
    ScaleAdd(q, 1, cap);
    ScaleOne(cap);
    hide Scale;
    if n > q { ScaleLe(q + 1, n, cap); } else { ScaleLe(n, q, cap); }
  }

  /** Whatever the block size and the context, short of the reach the one-shot loop fails too. */
  lemma OneShotFails(gs: seq<Geometry>, K: nat, chunk: int, leftCtx: int) returns (c: Codec, frames: seq<Frame>)
    requires Rated(gs) && GeometryHop(gs) == HOP && K >= 1 && AtLeast(leftCtx, 0) < GeometryReach(gs)
    ensures IsChain(c, K, CodeOf, Shifts(gs), Level) && Rectangular(frames, K)
    ensures OneShot(c, frames, K, chunk, leftCtx) != SliceAudio(c, frames, K)
  {
    hide IsChain, GeometryHop, GeometryReach, OneShot, SliceAudio, Scale;
    var cap, left := AtLeast(chunk, 1), AtLeast(leftCtx, 0);
    var N := Scale(left + 1, cap) + 1;
    FlatStart(cap, left + 1);
    ScaleGrows(left + 1, cap);
    assert left < StartOf(cap, cap, left + 1) < N;
    c, frames := ShortContextIsHeard(gs, K, chunk, leftCtx, 0, N, _ => true);
  }

  lemma ScaleGrows(n: nat, cap: nat)
    requires cap >= 1
    ensures Scale(n, cap) >= n
  {
  }

  /** As shipped, exact up to 300 frames with the library's 24 s blocks and 2 s of context, and up to
      86 frames with the server's progressive start and 6 s of context on a GPU; for every longer
      utterance there is a decoder of the shipped geometry that makes it go wrong. */
  lemma ShippedSettings(K: nat, N: nat)
    requires K >= 1
    ensures Stitches(Decoder(8, 72), K, 25, 300, 300, N) <==> N <= 300
    ensures Stitches(Decoder(8, 72), K, 75, 2, 300, N) <==> N <= 86
  {
    hide Stitches, Decoder, GeometryReach, GeometryHop;
    DecoderReach(8, 72);
    StitchesExactly(Decoder(8, 72), K, 25, 300, 300, N);
    StitchesExactly(Decoder(8, 72), K, 75, 2, 300, N);
    CoversCpu(N);
    CoversGpu(N);
  }

  lemma CoversCpu(N: nat)
    ensures Covers(580, 25, 300, 300, N) <==> N <= 300
  {
    hide StartOf;
    if N >= 1 { FlatCovers(580, 25, 300, N); }
  }

  lemma CoversGpu(N: nat)
    ensures Covers(580, 75, 2, 300, N) <==> N <= 86
  {
    GpuStarts();
    hide StartOf;
    forall n: nat | StartOf(2, 300, n) < N <= 86 ensures StartOf(2, 300, n) <= 75 {
      if n >= 4 { StartsGrow(2, 300, 4, n); } else { StartsGrow(2, 300, n, 3); }
    }
  }

  lemma GpuStarts()
    ensures StartOf(2, 300, 3) == 22 && StartOf(2, 300, 4) == 86
  {
    assert Size(2, 300, 1) == 4 && Size(2, 300, 2) == 16 && Size(2, 300, 3) == 64;
    assert StartOf(2, 300, 2) == 6;
  }
}
