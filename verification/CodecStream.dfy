/** Chunked decoding of codec frames, one-shot and streaming (src/codec-chunked-decode.h). */
module CodecStream {
  import opened Seqs
  import opened CodecLocality
  import opened Multiples

  const HOP := 1920

  type Frame = seq<int>
  type Sample = real

  /** What the codec backend does with a K-major slice of T frames; empty means it failed. */
  datatype Codec = Codec(decode: (seq<int>, nat, nat) -> seq<Sample>)

  // ----- layout ---------------------------------------------------------------------------

  predicate Rectangular(frames: seq<Frame>, K: nat) {
    forall t | 0 <= t < |frames| :: |frames[t]| == K
  }

  /** Codebook k of every frame. */
  function Row(frames: seq<Frame>, K: nat, k: nat): (r: seq<int>)
    requires Rectangular(frames, K) && k < K
    ensures |r| == |frames|
  {
    seq(|frames|, t requires 0 <= t < |frames| => frames[t][k])
  }

  /** The first n codebooks, one row after the other. */
  function Rows(frames: seq<Frame>, K: nat, n: nat): (r: seq<int>)
    requires Rectangular(frames, K) && n <= K
    ensures |r| == Scale(n, |frames|)
  {
    ScaleOne(|frames|);
    if n == 0 then []
    else
      ScaleAdd(n - 1, 1, |frames|);
      Rows(frames, K, n - 1) + Row(frames, K, n - 1)
  }

  function KMajor(frames: seq<Frame>, K: nat): seq<int>
    requires Rectangular(frames, K)
  {
    Rows(frames, K, K)
  }

  lemma SliceOfPrefix<T>(a: seq<T>, b: seq<T>, i: nat, j: nat)
    requires i <= j <= |a|
    ensures (a + b)[i..j] == a[i..j]
  {
  }

  lemma {:induction false} RowOfRows(frames: seq<Frame>, K: nat, n: nat, k: nat)
    requires Rectangular(frames, K) && k < n <= K
    ensures Scale(k, |frames|) + |frames| <= |Rows(frames, K, n)|
    ensures Rows(frames, K, n)[Scale(k, |frames|)..Scale(k, |frames|) + |frames|] == Row(frames, K, k)
  {
    hide Scale, Row, Rectangular;
    ScaleAdd(k, 1, |frames|);
    ScaleOne(|frames|);
    ScaleLe(k + 1, n, |frames|);
    ScaleAdd(n - 1, 1, |frames|);
    if k < n - 1 {
      RowOfRows(frames, K, n - 1, k);
      SliceOfPrefix(Rows(frames, K, n - 1), Row(frames, K, n - 1), Scale(k, |frames|), Scale(k, |frames|) + |frames|);
    }
  }

  lemma RowSlice(frames: seq<Frame>, K: nat, k: nat, a: nat, b: nat)
    requires Rectangular(frames, K) && k < K && a <= b <= |frames|
    ensures Row(frames, K, k)[a..b] == Row(frames[a..b], K, k)
  {
  }

  // ----- one block ------------------------------------------------------------------------

  /** Left context of a block: the configured one, or everything decoded before. */
  function Context(start: nat, left: nat): (ctx: nat)
    ensures ctx <= start
    ensures ctx == start || ctx == left
  {
    if start - left > 0 then left else start
  }

  function SliceAudio(c: Codec, frames: seq<Frame>, K: nat): seq<Sample>
    requires Rectangular(frames, K)
  {
    c.decode(KMajor(frames, K), K, |frames|)
  }

  /** The samples of frames [start, end): the slice with its context decoded, the context's samples
      dropped. None when the backend fails. */
  function Block(c: Codec, frames: seq<Frame>, K: nat, left: nat, start: nat, end: nat): Option<seq<Sample>>
    requires Rectangular(frames, K) && start <= end <= |frames|
  {
    var ctx := Context(start, left);
    var wav := SliceAudio(c, frames[start - ctx..end], K);
    if wav == [] then None else Some(if |wav| > ctx * HOP then wav[ctx * HOP..] else [])
  }

  /** Frames pushed later do not change a block. */
  lemma BlockStable(c: Codec, frames: seq<Frame>, more: seq<Frame>, K: nat, left: nat, start: nat, end: nat)
    requires Rectangular(frames + more, K) && Rectangular(frames, K) && start <= end <= |frames|
    ensures Block(c, frames + more, K, left, start, end) == Block(c, frames, K, left, start, end)
  {
    var a := start - Context(start, left);
    assert (frames + more)[a..end] == frames[a..end];
  }

  // ----- schedules ------------------------------------------------------------------------

  /** Length of the n-th block: the first one, then doubled once, then quadrupled, up to the cap. */
  function Size(first: nat, cap: nat, n: nat): (r: nat)
    requires 1 <= first <= cap
    ensures 1 <= r <= cap
  {
    if n == 0 then first
    else
      var next := Size(first, cap, n - 1) * (if n == 1 then 2 else 4);
      if next < cap then next else cap
  }

  lemma SizesNeverShrink(first: nat, cap: nat, n: nat)
    requires 1 <= first <= cap
    ensures Size(first, cap, n) <= Size(first, cap, n + 1)
  {
  }

  lemma {:induction false} CapIsFlat(cap: nat, n: nat)
    requires 1 <= cap
    ensures Size(cap, cap, n) == cap
  {
    if n > 0 { CapIsFlat(cap, n - 1); }
  }

  lemma StartZero(first: nat, cap: nat)
    requires 1 <= first <= cap
    ensures StartOf(first, cap, 0) == 0
  {
  }

  /** First frame of the n-th block. */
  function StartOf(first: nat, cap: nat, n: nat): nat
    requires 1 <= first <= cap
  {
    if n == 0 then 0 else StartOf(first, cap, n - 1) + Size(first, cap, n - 1)
  }

  /** The stream tells the first step by emitStart == nextChunk: true after the first block, and
      never again. */
  lemma DoublesOnce(first: nat, cap: nat, n: nat)
    requires 1 <= first <= cap
    ensures StartOf(first, cap, n + 1) == Size(first, cap, n) <==> n == 0
  {
    assert StartOf(first, cap, n + 1) == StartOf(first, cap, n) + Size(first, cap, n);
    if n > 0 { assert StartOf(first, cap, n) >= Size(first, cap, n - 1); }
  }

  /** Decoding from block n on, to the last frame; the last block may be short. None when the
      backend fails on some block. */
  function Scheduled(c: Codec, frames: seq<Frame>, K: nat, left: nat, first: nat, cap: nat, n: nat): Option<seq<Sample>>
    requires Rectangular(frames, K) && 1 <= first <= cap
    decreases |frames| - StartOf(first, cap, n)
  {
    var start := StartOf(first, cap, n);
    if start >= |frames| then Some([])
    else
      var end := BlockEnd(|frames|, start, Size(first, cap, n));
      var head := Block(c, frames, K, left, start, end);
      var tail := Scheduled(c, frames, K, left, first, cap, n + 1);
      Join(head, tail)
  }

  function Join(head: Option<seq<Sample>>, tail: Option<seq<Sample>>): Option<seq<Sample>> {
    if head.None? || tail.None? then None else Some(head.value + tail.value)
  }

  function BlockEnd(frames: nat, start: nat, size: nat): nat {
    if start + size > frames then frames else start + size
  }

  lemma ScheduledStep(c: Codec, frames: seq<Frame>, K: nat, left: nat, first: nat, cap: nat, n: nat)
    requires Rectangular(frames, K) && 1 <= first <= cap && StartOf(first, cap, n) < |frames|
    ensures var start := StartOf(first, cap, n);
            var end := BlockEnd(|frames|, start, Size(first, cap, n));
            && start < end
            && Scheduled(c, frames, K, left, first, cap, n)
               == Join(Block(c, frames, K, left, start, end), Scheduled(c, frames, K, left, first, cap, n + 1))
            && StartOf(first, cap, n + 1) == start + Size(first, cap, n)
  {
  }

  lemma ScheduledEnd(c: Codec, frames: seq<Frame>, K: nat, left: nat, first: nat, cap: nat, n: nat)
    requires Rectangular(frames, K) && 1 <= first <= cap && StartOf(first, cap, n) >= |frames|
    ensures Scheduled(c, frames, K, left, first, cap, n) == Some([])
  {
  }

  // ----- one shot -------------------------------------------------------------------------

  /** Copies frames [a, b) out of a K-major buffer of T frames, codebook by codebook. */
  method CopySlice(codes: seq<int>, K: nat, T: nat, a: nat, b: nat, ghost frames: seq<Frame>) returns (slice: seq<int>)
    requires Rectangular(frames, K) && |frames| == T && codes == KMajor(frames, K) && a <= b <= T
    ensures slice == KMajor(frames[a..b], K)
  {
    hide Scale;
    slice := [];
    for k := 0 to K
      invariant slice == Rows(frames[a..b], K, k)
    {
      RowOfRows(frames, K, K, k);
      ghost var o := Scale(k, T);
      RowSlice(frames, K, k, a, b);
      SliceOfSlice(codes, o, o + T, a, b);
      slice := slice + codes[At(k, T) + a..At(k, T) + b];
    }
  }

  function At(k: nat, T: nat): nat { Scale(k, T) }

  /** One turn of the one-shot loop. */
  method DecodeBlock(c: Codec, codes: seq<int>, K: nat, T: nat, left: nat, start: nat, end: nat,
                     ghost frames: seq<Frame>) returns (block: Option<seq<Sample>>)
    requires Rectangular(frames, K) && |frames| == T && codes == KMajor(frames, K) && start <= end <= T
    ensures block == Block(c, frames, K, left, start, end)
  {
    var ctx := if start - left > 0 then left else start;
    var slice := CopySlice(codes, K, T, start - ctx, end, frames);
    var wav := c.decode(slice, K, end - (start - ctx));
    assert wav == SliceAudio(c, frames[start - ctx..end], K);
    if wav == [] { return None; }
    if |wav| > ctx * HOP { return Some(wav[ctx * HOP..]); }
    return Some([]);
  }

  /** codec_chunked_decode. The ghost argument names the frames the buffer holds. */
  method ChunkedDecode(c: Codec, codes: seq<int>, K: nat, T: int, chunk: int, leftCtx: int,
                       ghost frames: seq<Frame>) returns (out: seq<Sample>)
    requires T > 0 ==> Rectangular(frames, K) && |frames| == T && codes == KMajor(frames, K)
    ensures out == if T <= 0 then [] else OneShot(c, frames, K, chunk, leftCtx)
  {
    if T <= 0 { return []; }
    out := DecodeLoop(c, codes, K, T, AtLeast(chunk, 1), AtLeast(leftCtx, 0), frames);
  }

  /** All blocks of the flat schedule one after the other; nothing at all when one of them fails. */
  function OneShot(c: Codec, frames: seq<Frame>, K: nat, chunk: int, leftCtx: int): seq<Sample>
    requires Rectangular(frames, K)
  {
    var cap := AtLeast(chunk, 1);
    OrEmpty(Scheduled(c, frames, K, AtLeast(leftCtx, 0), cap, cap, 0))
  }

  function OrEmpty(r: Option<seq<Sample>>): seq<Sample> { if r.Some? then r.value else [] }

  method DecodeLoop(c: Codec, codes: seq<int>, K: nat, T: nat, cap: nat, left: nat, ghost frames: seq<Frame>)
    returns (out: seq<Sample>)
    requires cap >= 1 && Rectangular(frames, K) && |frames| == T && codes == KMajor(frames, K)
    ensures out == OrEmpty(Scheduled(c, frames, K, left, cap, cap, 0))
  {
    hide Rectangular, KMajor, Size, StartOf, Scheduled, Block, Join;
    out := [];
    StartZero(cap, cap);
    ghost var whole := Scheduled(c, frames, K, left, cap, cap, 0);
    var start := 0;
    ghost var n := 0;
    NothingBefore(whole);
    while start < T
      invariant 0 <= start <= T
      invariant start == (if StartOf(cap, cap, n) < T then StartOf(cap, cap, n) else T)
      invariant whole == Join(Some(out), Scheduled(c, frames, K, left, cap, cap, n))
    {
      CapIsFlat(cap, n);
      ScheduledStep(c, frames, K, left, cap, cap, n);
      var end := start + cap;
      if end > T { end := T; }
      var block := DecodeBlock(c, codes, K, T, left, start, end, frames);
      JoinAssoc(out, OrEmpty(block), Scheduled(c, frames, K, left, cap, cap, n + 1));
      if block.None? { return []; }
      out := out + block.value;
      start := end;
      n := n + 1;
    }
    ScheduledEnd(c, frames, K, left, cap, cap, n);
    JoinAssoc(out, [], None);
  }

  lemma NothingBefore(r: Option<seq<Sample>>)
    ensures r == Join(Some([]), r)
  {
    if r.Some? { assert [] + r.value == r.value; }
  }

  lemma JoinAssoc(out: seq<Sample>, block: seq<Sample>, tail: Option<seq<Sample>>)
    ensures Join(Some(out), Join(Some(block), tail)) == Join(Some(out + block), tail)
    ensures Join(None, tail) == None && Join(Some(out), None) == None
    ensures Join(Some(out), Some([])) == Some(out)
  {
    if tail.Some? { assert out + (block + tail.value) == out + block + tail.value; }
    assert out + [] == out;
  }

  // ----- streaming ------------------------------------------------------------------------

  /** The client's on_chunk callback: it sees every block and may refuse one. */
  class Sink {
    var calls: seq<seq<Sample>>
    const accepts: seq<seq<Sample>> -> bool

    constructor (accepts: seq<seq<Sample>> -> bool)
      ensures calls == [] && this.accepts == accepts
    {
      calls := [];
      this.accepts := accepts;
    }

    method Call(block: seq<Sample>) returns (ok: bool)
      modifies this
      ensures calls == old(calls) + [block] && ok == accepts(calls)
    {
      calls := calls + [block];
      ok := accepts(calls);
    }
  }

  /** What an attempt to emit a block leaves: whether the stream goes on, what the client has been
      handed, and whether the client cancelled. */
  datatype Emission = Emission(ok: bool, calls: seq<seq<Sample>>, cancelled: bool)

  function Emit(block: Option<seq<Sample>>, calls: seq<seq<Sample>>, accepts: seq<seq<Sample>> -> bool): Emission {
    if block.None? then Emission(false, calls, false)
    else if block.value == [] then Emission(true, calls, false)
    else Emission(accepts(calls + [block.value]), calls + [block.value], !accepts(calls + [block.value]))
  }

  class DecoderStream {
    var byK: seq<seq<int>>
    var K: nat
    var tSoFar: nat
    var chunkFrames: nat
    var leftCtxFrames: nat
    var emitStart: nat
    var nextChunk: nat
    var cancelled: bool

    ghost var first: nat           // size of the first block
    ghost var frames: seq<Frame>   // everything pushed
    ghost var blocks: nat          // blocks emitted

    /** The fields agree with the frames pushed and the blocks emitted so far. */
    ghost predicate Shape()
      reads this
    {
      && 1 <= first <= chunkFrames
      && Rectangular(frames, K) && tSoFar == |frames|
      && |byK| == K && (forall k | 0 <= k < K :: byK[k] == Row(frames, K, k))
      && emitStart == StartOf(first, chunkFrames, blocks)
      && nextChunk == Size(first, chunkFrames, blocks)
    }

    /** Between pushes fewer frames are pending than the next block needs. */
    ghost predicate Valid()
      reads this
    {
      Shape() && emitStart <= tSoFar < emitStart + nextChunk && !cancelled
    }

    ghost function Settings(): (nat, nat, nat, nat)
      reads this
    {
      (K, chunkFrames, leftCtxFrames, first)
    }

    constructor (K: nat, chunk: int, left: int, firstChunk: int)
      ensures Valid() && frames == [] && blocks == 0
      ensures Settings() == (K, AtLeast(chunk, 1), AtLeast(left, 0), FirstSize(AtLeast(chunk, 1), firstChunk))
      ensures chunkFrames == (if chunk < 1 then 1 else chunk) && leftCtxFrames == (if left < 0 then 0 else left)
      ensures first == nextChunk == if 0 < firstChunk < chunk then firstChunk else chunkFrames
      ensures emitStart == tSoFar == 0
    {
      this.K, tSoFar, emitStart, cancelled := K, 0, 0, false;
      chunkFrames := AtLeast(chunk, 1);
      leftCtxFrames := AtLeast(left, 0);
      nextChunk := FirstSize(AtLeast(chunk, 1), firstChunk);
      first := FirstSize(AtLeast(chunk, 1), firstChunk);
      byK := seq(K, _ => []);
      frames, blocks := [], 0;
    }

    /** Decodes frames [emitStart, end) and hands the block to the client. */
    method EmitOne(c: Codec, end: nat, sink: Sink) returns (ok: bool)
      requires Rectangular(frames, K) && |byK| == K && emitStart <= end <= |frames| && !cancelled
      requires forall k | 0 <= k < K :: byK[k] == Row(frames, K, k)
      modifies this`emitStart, this`cancelled, sink
      ensures Emission(ok, sink.calls, cancelled)
           == Emit(Block(c, frames, K, leftCtxFrames, old(emitStart), end), old(sink.calls), sink.accepts)
      ensures emitStart == if ok then end else old(emitStart)
      ensures ok ==> !cancelled
    {
      var ctx := if emitStart - leftCtxFrames > 0 then leftCtxFrames else emitStart;
      var a := emitStart - ctx;
      var slice := GatherSlice(a, end);
      var wav := c.decode(slice, K, end - a);
      assert wav == SliceAudio(c, frames[a..end], K);
      if wav == [] { return false; }
      var emitN := |wav| - ctx * HOP;
      if emitN > 0 {
        var accepted := sink.Call(wav[ctx * HOP..]);
        if !accepted {
          cancelled := true;
          return false;
        }
      }
      emitStart := end;
      return true;
    }

    method GatherSlice(a: nat, end: nat) returns (slice: seq<int>)
      requires Rectangular(frames, K) && |byK| == K && a <= end <= |frames|
      requires forall k | 0 <= k < K :: byK[k] == Row(frames, K, k)
      ensures slice == KMajor(frames[a..end], K)
    {
      slice := [];
      for k := 0 to K
        invariant slice == Rows(frames[a..end], K, k)
      {
        RowSlice(frames, K, k, a, end);
        slice := slice + byK[k][a..end];
      }
    }

    /** Until its first block a stream stands at frame 0 and has fewer frames than the first size, so
        the push that brings them to that size is the one that emits, and what it emits is frames
        [0, first). */
    lemma FirstBlockAtStart()
      requires Valid()
      ensures blocks == 0 ==> emitStart == 0 && nextChunk == first && tSoFar == |frames| < first
    {
    }

    method Append(frame: Frame)
      requires Shape() && |frame| == K
      modifies this`byK, this`frames, this`tSoFar
      ensures Shape() && frames == old(frames) + [frame]
    {
      for k := 0 to K
        modifies this`byK
        invariant |byK| == K
        invariant forall j | 0 <= j < K :: byK[j] == old(byK[j]) + (if j < k then [frame[j]] else [])
      {
        byK := byK[k := byK[k] + [frame[k]]];
      }
      frames := frames + [frame];
      tSoFar := tSoFar + 1;
    }

    /** One more frame. At most one block goes out, exactly when enough frames are pending. */
    method PushFrame(c: Codec, frame: Frame, sink: Sink) returns (ok: bool)
      requires Valid() && |frame| == K
      modifies this, sink
      ensures Settings() == old(Settings()) && frames == old(frames) + [frame]
      ensures ok ==> Valid()
      ensures if old(tSoFar) + 1 < old(emitStart + nextChunk) then
                ok && blocks == old(blocks) && sink.calls == old(sink.calls)
              else
                && Emission(ok, sink.calls, cancelled)
                   == Emit(Block(c, frames, K, leftCtxFrames, old(emitStart), |frames|), old(sink.calls), sink.accepts)
                && (ok ==> blocks == old(blocks) + 1 && emitStart == |frames|)
    {
      hide Size, StartOf, Block, Emit, Row;
      Append(frame);
      while tSoFar - emitStart >= nextChunk
        invariant Shape() && emitStart <= tSoFar && !cancelled
        invariant Settings() == old(Settings()) && frames == old(frames) + [frame]
        invariant if blocks == old(blocks) then sink.calls == old(sink.calls) && emitStart == old(emitStart)
                  else
                    && emitStart == |frames| == old(emitStart + nextChunk) && blocks == old(blocks) + 1
                    && Emission(true, sink.calls, false)
                       == Emit(Block(c, frames, K, leftCtxFrames, old(emitStart), |frames|), old(sink.calls), sink.accepts)
        decreases tSoFar - emitStart
      {
        ok := EmitOne(c, emitStart + nextChunk, sink);
        if !ok { return; }
        Grow();
      }
      return true;
    }

    /** The next block is twice as long after the first, four times as long later, up to the cap. */
    method Grow()
      requires 1 <= first <= chunkFrames && nextChunk == Size(first, chunkFrames, blocks)
      requires emitStart == StartOf(first, chunkFrames, blocks) + nextChunk
      modifies this`nextChunk, this`blocks
      ensures blocks == old(blocks) + 1
      ensures nextChunk == Size(first, chunkFrames, blocks) && emitStart == StartOf(first, chunkFrames, blocks)
    {
      hide Size, StartOf;
      DoublesOnce(first, chunkFrames, blocks);
      NextSize(first, chunkFrames, blocks);
      blocks := blocks + 1;
      var growth := if emitStart == nextChunk then 2 else 4;
      nextChunk := if nextChunk * growth < chunkFrames then nextChunk * growth else chunkFrames;
    }

    /** The tail at the end of the utterance, if any. */
    method Flush(c: Codec, sink: Sink) returns (ok: bool)
      requires Valid()
      modifies this`emitStart, this`cancelled, sink
      ensures if old(emitStart) == tSoFar then ok && !cancelled && sink.calls == old(sink.calls)
              else Emission(ok, sink.calls, cancelled)
                   == Emit(Block(c, frames, K, leftCtxFrames, old(emitStart), tSoFar), old(sink.calls), sink.accepts)
      ensures ok ==> emitStart == tSoFar
    {
      ok := true;
      if tSoFar > emitStart { ok := EmitOne(c, tSoFar, sink); }
    }
  }

  lemma NextSize(first: nat, cap: nat, n: nat)
    requires 1 <= first <= cap
    ensures StartOf(first, cap, n + 1) == StartOf(first, cap, n) + Size(first, cap, n)
    ensures var next := Size(first, cap, n) * (if n == 0 then 2 else 4);
            Size(first, cap, n + 1) == if next < cap then next else cap
  {
  }

  function AtLeast(x: int, low: nat): (r: nat)
    ensures r >= low
  {
    if x < low then low else x
  }

  function FirstSize(cap: nat, firstChunk: int): (r: nat)
    requires cap >= 1
    ensures 1 <= r <= cap
  {
    if 0 < firstChunk < cap then firstChunk else cap
  }
}
