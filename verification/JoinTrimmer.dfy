/** The filter that smooths the joins between the pieces of a long text (join_trimmer and the
    piece loop in tools/tts-server.cpp). */
module JoinTrimmer {
  import opened Seqs

  type Sample = real

  const BLOCK := 240
  const FADE := 120
  const THRESHOLD := 0.006

  // ----- silence, fades, blocks -----------------------------------------------------------

  function Energy(b: seq<Sample>): Sample {
    if b == [] then 0.0 else Energy(b[..|b| - 1]) + b[|b| - 1] * b[|b| - 1]
  }

  /** RMS below the threshold, with both sides squared. */
  predicate Silent(b: seq<Sample>) {
    |b| > 0 && Energy(b) < THRESHOLD * THRESHOLD * |b| as real
  }

  function FadeIn(s: seq<Sample>): (r: seq<Sample>)
    ensures |r| == |s| && forall i | FADE <= i < |s| :: r[i] == s[i]
  {
    seq(|s|, i requires 0 <= i < |s| => if i < FADE then s[i] * (i as real / FADE as real) else s[i])
  }

  function FadeOut(s: seq<Sample>): (r: seq<Sample>)
    ensures |r| == |s| && forall i | 0 <= i < |s| - FADE :: r[i] == s[i]
  {
    seq(|s|, i requires 0 <= i < |s| =>
      if |s| - 1 - i < FADE then s[i] * ((|s| - 1 - i) as real / FADE as real) else s[i])
  }

  function LastOf(s: seq<Sample>, n: nat): (r: seq<Sample>)
    ensures |r| <= n
  {
    if |s| > n then s[|s| - n..] else s
  }

  function FirstOf(s: seq<Sample>, n: nat): (r: seq<Sample>)
    ensures |r| <= n
  {
    if |s| > n then s[..n] else s
  }

  /** r is the last `keep` samples of s, or all of them, its first 120 rising in steps of 1/120. */
  ghost predicate FadedIn(r: seq<Sample>, s: seq<Sample>, keep: nat) {
    && |r| == (if |s| < keep then |s| else keep)
    && forall i | 0 <= i < |r| ::
         if i < 120 then r[i] * 120.0 == s[|s| - |r| + i] * i as real else r[i] == s[|s| - |r| + i]
  }

  /** r is the first `keep` samples of s, or all of them, its last 120 falling in steps of 1/120. */
  ghost predicate FadedOut(r: seq<Sample>, s: seq<Sample>, keep: nat) {
    && |r| == (if |s| < keep then |s| else keep)
    && forall i | 0 <= i < |r| ::
         if |r| - 1 - i < 120 then r[i] * 120.0 == s[i] * (|r| - 1 - i) as real else r[i] == s[i]
  }

  lemma FadesIn(s: seq<Sample>, keep: nat)
    ensures FadedIn(FadeIn(LastOf(s, keep)), s, keep)
  {
    var r := LastOf(s, keep);
    forall i | 0 <= i < |r| && i < 120 ensures FadeIn(r)[i] * 120.0 == r[i] * i as real { Fraction(r[i], i); }
  }

  lemma FadesOut(s: seq<Sample>, keep: nat)
    ensures FadedOut(FadeOut(FirstOf(s, keep)), s, keep)
  {
    var r := FirstOf(s, keep);
    forall i | 0 <= i < |r| && |r| - 1 - i < 120 ensures FadeOut(r)[i] * 120.0 == r[i] * (|r| - 1 - i) as real {
      Fraction(r[i], |r| - 1 - i);
    }
  }

  lemma Fraction(x: Sample, i: nat)
    ensures x * (i as real / FADE as real) * 120.0 == x * i as real
  {
    var f := i as real / 120.0;
    assert f * 120.0 == i as real;
    assert x * f * 120.0 == x * (f * 120.0);
  }

  /** The first n full blocks. */
  function FullBlocks(s: seq<Sample>, n: nat): seq<seq<Sample>>
    requires BLOCK * n <= |s|
  {
    seq(n, k requires 0 <= k < n => s[BLOCK * k..BLOCK * k + BLOCK])
  }

  /** A piece as the filter sees it: full blocks, and a short one at the end if samples remain. */
  function Blocks(s: seq<Sample>): seq<seq<Sample>> {
    var n := |s| / BLOCK;
    FullBlocks(s, n) + (if BLOCK * n < |s| then [s[BLOCK * n..]] else [])
  }

  lemma {:induction false} FullBlocksSpell(s: seq<Sample>, n: nat)
    requires BLOCK * n <= |s|
    ensures Concat(FullBlocks(s, n)) == s[..BLOCK * n]
  {
    if n > 0 {
      FullBlocksSpell(s, n - 1);
      assert FullBlocks(s, n) == FullBlocks(s, n - 1) + [s[BLOCK * (n - 1)..BLOCK * n]];
      ConcatSnoc(FullBlocks(s, n - 1), s[BLOCK * (n - 1)..BLOCK * n]);
    }
  }

  lemma PrefixBlocks(s: seq<Sample>, t: seq<Sample>, n: nat)
    requires BLOCK * n <= |s|
    ensures FullBlocks(s + t, n) == FullBlocks(s, n)
  {
    forall k | 0 <= k < n ensures (s + t)[BLOCK * k..BLOCK * k + BLOCK] == s[BLOCK * k..BLOCK * k + BLOCK] {
    }
  }

  /** A block further on in what is left behind the first m. */
  lemma NextBlock(piece: seq<Sample>, m: nat, off: nat, k: nat)
    requires BLOCK * m <= |piece| && off == BLOCK * (k - m) && k >= m
    requires off + BLOCK <= |piece[BLOCK * m..]|
    ensures BLOCK * (k + 1) <= |piece|
    ensures FullBlocks(piece, k + 1) == FullBlocks(piece, k) + [piece[BLOCK * m..][off..off + BLOCK]]
  {
    assert piece[BLOCK * m..][off..off + BLOCK] == piece[BLOCK * k..BLOCK * k + BLOCK];
  }

  lemma BlocksSpell(s: seq<Sample>)
    ensures Concat(Blocks(s)) == s
  {
    var n := |s| / BLOCK;
    FullBlocksSpell(s, n);
    if BLOCK * n < |s| {
      ConcatSnoc(FullBlocks(s, n), s[BLOCK * n..]);
    } else {
      assert Blocks(s) == FullBlocks(s, n);
    }
  }

  /** Blocks are 240 samples long, the last one 1 to 240. */
  lemma BlockLengths(s: seq<Sample>, k: nat)
    requires k < |Blocks(s)|
    ensures if k + 1 < |Blocks(s)| then |Blocks(s)[k]| == 240 else 0 < |Blocks(s)[k]| <= 240
  {
  }

  /** A block is silent when the mean of its squares is below 0.006 squared; an empty one never is. */
  lemma SilentMeans(b: seq<Sample>)
    ensures Silent(b) <==> b != [] && Energy(b) < 0.000036 * |b| as real
  {
    hide Energy;
    Regrouped(|b| as real);
  }

  lemma Regrouped(n: real)
    ensures THRESHOLD * THRESHOLD * n == 0.000036 * n
  {
    assert THRESHOLD * THRESHOLD == 0.000036;
  }

  lemma EnergyMeans(b: seq<Sample>, x: Sample)
    ensures Energy([]) == 0.0 && Energy(b + [x]) == Energy(b) + x * x
  {
    assert (b + [x])[..|b|] == b;
  }

  // ----- what a piece turns into ----------------------------------------------------------

  predicate Speaks(bs: seq<seq<Sample>>) {
    exists k | 0 <= k < |bs| :: !Silent(bs[k])
  }

  /** Blocks before the first speech. */
  function Onset(bs: seq<seq<Sample>>): (i: nat)
    requires Speaks(bs)
    ensures i < |bs| && !Silent(bs[i]) && forall k | 0 <= k < i :: Silent(bs[k])
  {
    if !Silent(bs[0]) then 0 else
      assert exists k | 0 <= k < |bs[1..]| :: !Silent(bs[1..][k]) by {
        var k :| 0 <= k < |bs| && !Silent(bs[k]);
        assert bs[1..][k - 1] == bs[k];
      }
      var i := Onset(bs[1..]);
      assert forall k | 1 <= k < i + 1 :: Silent(bs[k]) by {
        forall k | 1 <= k < i + 1 ensures Silent(bs[k]) { assert bs[1..][k - 1] == bs[k]; }
      }
      i + 1
  }

  /** Blocks up to and including the last speech. */
  function Offset(bs: seq<seq<Sample>>): (j: nat)
    requires Speaks(bs)
    ensures 0 < j <= |bs| && !Silent(bs[j - 1]) && forall k | j <= k < |bs| :: Silent(bs[k])
  {
    if !Silent(bs[|bs| - 1]) then |bs| else
      var r := bs[..|bs| - 1];
      assert Speaks(r) by {
        var k :| 0 <= k < |bs| && !Silent(bs[k]);
        assert r[k] == bs[k];
      }
      Offset(r)
  }

  lemma OnsetBeforeOffset(bs: seq<seq<Sample>>)
    requires Speaks(bs)
    ensures Onset(bs) < Offset(bs)
  {
  }

  /** Where the piece stands in the stream, and how much silence its joins keep. */
  datatype Join = Join(first: bool, last: bool, leadKeep: nat, trailKeep: nat)

  /** The lead-in as emitted: whole for the first piece, its faded end otherwise. */
  function LeadIn(jn: Join, silence: seq<Sample>): seq<Sample> {
    if jn.first then silence else FadeIn(LastOf(silence, jn.leadKeep))
  }

  function LeadOf(jn: Join, bs: seq<seq<Sample>>): seq<Sample>
    requires Speaks(bs)
  {
    LeadIn(jn, Concat(bs[..Onset(bs)]))
  }

  /** Everything from the first speech to the last, silence in between included. */
  function BodyOf(bs: seq<seq<Sample>>): seq<Sample>
    requires Speaks(bs)
  {
    OnsetBeforeOffset(bs);
    Concat(bs[Onset(bs)..Offset(bs)])
  }

  function SilenceAfter(bs: seq<seq<Sample>>): seq<Sample>
    requires Speaks(bs)
  {
    Concat(bs[Offset(bs)..])
  }

  /** Samples out before the piece is closed. */
  function Emitted(jn: Join, bs: seq<seq<Sample>>): seq<Sample> {
    if !Speaks(bs) then (if jn.first then Concat(bs) else [])
    else LeadOf(jn, bs) + BodyOf(bs) + (if jn.last then SilenceAfter(bs) else [])
  }

  function Held(jn: Join, bs: seq<seq<Sample>>): seq<Sample> {
    if !Speaks(bs) || jn.last then [] else SilenceAfter(bs)
  }

  function LeadBuffer(jn: Join, bs: seq<seq<Sample>>): seq<Sample> {
    if Speaks(bs) || jn.first then [] else LastOf(Concat(bs), jn.leadKeep)
  }

  function TrailOf(jn: Join, bs: seq<seq<Sample>>): seq<Sample>
    requires Speaks(bs)
  {
    if jn.last then SilenceAfter(bs) else FadeOut(FirstOf(SilenceAfter(bs), jn.trailKeep))
  }

  /** The whole piece, in closed form: a silent first piece passes, any other silent piece
      vanishes, a speaking piece is its lead, its body and its trail. */
  function PieceOutput(jn: Join, samples: seq<Sample>): seq<Sample> {
    var bs := Blocks(samples);
    if !Speaks(bs) then (if jn.first then samples else [])
    else LeadOf(jn, bs) + BodyOf(bs) + TrailOf(jn, bs)
  }

  lemma NothingYet(jn: Join)
    ensures !Speaks([]) && Emitted(jn, []) == [] && Held(jn, []) == [] && LeadBuffer(jn, []) == []
    ensures FullBlocks([], 0) == []
  {
  }

  // ----- one block more -------------------------------------------------------------------

  lemma SpeaksSnoc(bs: seq<seq<Sample>>, b: seq<Sample>)
    ensures Speaks(bs + [b]) <==> Speaks(bs) || !Silent(b)
  {
    var cs := bs + [b];
    if Speaks(bs) {
      var k :| 0 <= k < |bs| && !Silent(bs[k]);
      assert cs[k] == bs[k];
    }
    if !Silent(b) { assert cs[|bs|] == b; }
    assert forall k | 0 <= k < |bs| :: cs[k] == bs[k];
  }

  lemma OnsetIs(bs: seq<seq<Sample>>, i: nat)
    requires Speaks(bs) && i < |bs| && !Silent(bs[i]) && forall k | 0 <= k < i :: Silent(bs[k])
    ensures Onset(bs) == i
  {
  }

  lemma OffsetIs(bs: seq<seq<Sample>>, j: nat)
    requires Speaks(bs) && 0 < j <= |bs| && !Silent(bs[j - 1]) && forall k | j <= k < |bs| :: Silent(bs[k])
    ensures Offset(bs) == j
  {
  }

  /** A silent block in a silent beginning. */
  lemma StillSilent(jn: Join, bs: seq<seq<Sample>>, b: seq<Sample>)
    requires !Speaks(bs) && Silent(b)
    ensures !Speaks(bs + [b]) && Held(jn, bs + [b]) == []
    ensures Emitted(jn, bs + [b]) == Emitted(jn, bs) + (if jn.first then b else [])
    ensures LeadBuffer(jn, bs + [b]) == if jn.first then [] else LastOf(LeadBuffer(jn, bs) + b, jn.leadKeep)
  {
    SpeaksSnoc(bs, b);
    ConcatSnoc(bs, b);
    LastOfAppend(Concat(bs), b, jn.leadKeep);
  }

  lemma LastOfAppend(a: seq<Sample>, b: seq<Sample>, n: nat)
    ensures LastOf(a + b, n) == LastOf(LastOf(a, n) + b, n)
  {
  }

  lemma FirstSpeech(bs: seq<seq<Sample>>, b: seq<Sample>)
    requires !Speaks(bs) && !Silent(b)
    ensures Speaks(bs + [b]) && Onset(bs + [b]) == |bs| && Offset(bs + [b]) == |bs| + 1
  {
    hide *;
    AllSilent(bs);
    SpeaksSnoc(bs, b);
    SnocElements(bs, b);
    OnsetIs(bs + [b], |bs|);
    OffsetIs(bs + [b], |bs| + 1);
  }

  /** The first speech: the body is the new block, everything before it the lead-in. */
  lemma FirstParts(jn: Join, bs: seq<seq<Sample>>, b: seq<Sample>)
    requires !Speaks(bs) && !Silent(b)
    ensures Speaks(bs + [b]) && LeadOf(jn, bs + [b]) == LeadIn(jn, Concat(bs))
    ensures BodyOf(bs + [b]) == b && SilenceAfter(bs + [b]) == []
  {
    hide Speaks, Silent, Onset, Offset, Concat, LeadIn;
    var cs := bs + [b];
    FirstSpeech(bs, b);
    NothingLeft(cs);
    ConcatSnoc([], b);
    NothingLeft(bs);
    assert cs[..|bs|] == bs && cs[|bs|..|cs|] == [] + [b] && bs[|bs|..] == [];
    assert [] + b == b;
  }

  /** The first speech. */
  lemma SpeechStarts(jn: Join, bs: seq<seq<Sample>>, b: seq<Sample>)
    requires !Speaks(bs) && !Silent(b)
    ensures Speaks(bs + [b]) && LeadBuffer(jn, bs + [b]) == [] && Held(jn, bs + [b]) == []
    ensures Emitted(jn, bs + [b]) == Emitted(jn, bs) + FadeIn(LeadBuffer(jn, bs)) + b
  {
    hide Speaks, Silent, Onset, Offset, Concat, FadeIn, LastOf, LeadOf, BodyOf, SilenceAfter;
    FirstParts(jn, bs, b);
    NoFade();
    var lead := LeadIn(jn, Concat(bs));
    assert lead + b + [] == lead + b;
    if jn.first { assert Concat(bs) + [] == Concat(bs); } else { assert [] + lead == lead; }
  }

  lemma NoFade()
    ensures FadeIn([]) == []
  {
  }

  lemma AllSilent(bs: seq<seq<Sample>>)
    requires !Speaks(bs)
    ensures forall k | 0 <= k < |bs| :: Silent(bs[k])
  {
  }

  /** A silent block after speech. */
  lemma SilenceAfterSpeech(jn: Join, bs: seq<seq<Sample>>, b: seq<Sample>)
    requires Speaks(bs) && Silent(b)
    ensures Speaks(bs + [b]) && LeadBuffer(jn, bs + [b]) == []
    ensures Emitted(jn, bs + [b]) == Emitted(jn, bs) + (if jn.last then b else [])
    ensures Held(jn, bs + [b]) == if jn.last then [] else Held(jn, bs) + b
  {
    hide Silent, Speaks, Onset, Offset, FadeIn, LastOf, Concat;
    var i, j := Onset(bs), Offset(bs);
    SpeaksSnoc(bs, b);
    OnsetBeforeOffset(bs);
    SpeechEnds(bs, b);
    SliceSnoc(bs, b, 0, i);
    SliceSnoc(bs, b, i, j);
    assert (bs + [b])[j..] == bs[j..] + [b];
    ConcatSnoc(bs[j..], b);
    if jn.last {
      assert LeadOf(jn, bs) + BodyOf(bs) + (SilenceAfter(bs) + b) == LeadOf(jn, bs) + BodyOf(bs) + SilenceAfter(bs) + b;
    }
  }

  /** A block more changes neither the onset nor, when it is silent, the offset. */
  lemma SpeechEnds(bs: seq<seq<Sample>>, b: seq<Sample>)
    requires Speaks(bs)
    ensures Speaks(bs + [b]) && Onset(bs + [b]) == Onset(bs)
    ensures Offset(bs + [b]) == if Silent(b) then Offset(bs) else |bs| + 1
  {
    hide *;
    SpeaksSnoc(bs, b);
    OnsetStays(bs, bs + [b], Onset(bs));
    if Silent(b) { OffsetStays(bs, b, Offset(bs)); } else { OffsetMoves(bs, b); }
  }

  lemma OnsetStays(bs: seq<seq<Sample>>, cs: seq<seq<Sample>>, i: nat)
    requires bs <= cs && Speaks(cs) && i < |bs| && !Silent(bs[i]) && forall k | 0 <= k < i :: Silent(bs[k])
    ensures Onset(cs) == i
  {
    hide *;
    forall k | 0 <= k < i ensures Silent(cs[k]) { assert cs[k] == bs[k]; }
    assert cs[i] == bs[i];
    OnsetIs(cs, i);
  }

  lemma OffsetStays(bs: seq<seq<Sample>>, b: seq<Sample>, j: nat)
    requires Speaks(bs + [b]) && Silent(b)
    requires 0 < j <= |bs| && !Silent(bs[j - 1]) && forall k | j <= k < |bs| :: Silent(bs[k])
    ensures Offset(bs + [b]) == j
  {
    hide *;
    SnocElements(bs, b);
    OffsetIs(bs + [b], j);
  }

  lemma OffsetMoves(bs: seq<seq<Sample>>, b: seq<Sample>)
    requires Speaks(bs + [b]) && !Silent(b)
    ensures Offset(bs + [b]) == |bs| + 1
  {
    hide *;
    SnocElements(bs, b);
    OffsetIs(bs + [b], |bs| + 1);
  }

  lemma SnocElements<T>(s: seq<T>, x: T)
    ensures (s + [x])[|s|] == x && forall k | 0 <= k < |s| :: (s + [x])[k] == s[k]
  {
  }

  lemma SliceSnoc<T>(s: seq<T>, x: T, i: nat, j: nat)
    requires i <= j <= |s|
    ensures (s + [x])[i..j] == s[i..j] && (s + [x])[..i] == s[..i]
  {
  }

  /** More speech: what was held is released. */
  lemma SpeechGoesOn(jn: Join, bs: seq<seq<Sample>>, b: seq<Sample>)
    requires Speaks(bs) && !Silent(b)
    ensures Speaks(bs + [b]) && LeadBuffer(jn, bs + [b]) == [] && Held(jn, bs + [b]) == []
    ensures Emitted(jn, bs + [b]) == Emitted(jn, bs) + Held(jn, bs) + b
  {
    hide Silent, Speaks, Onset, Offset, FadeIn, LastOf, Concat;
    var cs, i, j := bs + [b], Onset(bs), Offset(bs);
    SpeaksSnoc(bs, b);
    OnsetBeforeOffset(bs);
    SpeechEnds(bs, b);
    SliceSnoc(bs, b, i, j);
    NothingLeft(cs);
    assert cs[i..|cs|] == bs[i..j] + bs[j..] + [b];
    ConcatSnoc(bs[i..j] + bs[j..], b);
    ConcatAppend(bs[i..j], bs[j..]);
    assert LeadOf(jn, bs) + (BodyOf(bs) + SilenceAfter(bs) + b) == LeadOf(jn, bs) + BodyOf(bs) + SilenceAfter(bs) + b;
  }

  lemma NothingLeft(bs: seq<seq<Sample>>)
    ensures bs[|bs|..] == [] && Concat(bs[|bs|..]) == []
  {
  }

  // ----- the filter -----------------------------------------------------------------------

  /** The client's sink: it receives samples and may refuse to go on. */
  class Client {
    var got: seq<Sample>
    var refused: bool
    const accepts: seq<Sample> -> bool

    constructor (accepts: seq<Sample> -> bool)
      ensures got == [] && !refused && this.accepts == accepts
    {
      got, refused, this.accepts := [], false, accepts;
    }

    method Take(s: seq<Sample>) returns (ok: bool)
      modifies this
      ensures got == old(got) + s && ok == accepts(got) && refused == (old(refused) || !ok)
    {
      got := got + s;
      ok := accepts(got);
      refused := refused || !ok;
    }
  }

  class Trimmer {
    const out: Client
    const leadKeep: nat
    const trailKeep: nat
    var leading: bool
    var holdTrail: bool
    var spoke: bool
    var pend: seq<Sample>
    var lead: seq<Sample>
    var held: seq<Sample>

    ghost var join: Join
    ghost var piece: seq<Sample>          // samples pushed since begin_piece
    ghost var done: seq<seq<Sample>>      // blocks handled since begin_piece
    ghost var before: seq<Sample>         // what the client had when the piece began

    /** The buffers are what the blocks handled so far say they are. */
    ghost predicate Buffers()
      reads this`join, this`leading, this`holdTrail, this`spoke, this`lead, this`held, this`done
    {
      && join.leadKeep == leadKeep && join.trailKeep == trailKeep
      && leading == (!join.first && !Speaks(done)) && holdTrail == !join.last && spoke == Speaks(done)
      && lead == LeadBuffer(join, done) && held == Held(join, done)
    }

    ghost predicate Valid()
      reads this, out
    {
      && Buffers() && out.got == before + Emitted(join, done) && !out.refused
      && BLOCK * |done| <= |piece| && done == FullBlocks(piece, |done|)
      && pend == piece[BLOCK * |done|..] && |pend| < BLOCK
    }

    constructor (out: Client, leadKeep: nat, trailKeep: nat)
      ensures this.out == out && this.leadKeep == leadKeep && this.trailKeep == trailKeep
    {
      this.out, this.leadKeep, this.trailKeep := out, leadKeep, trailKeep;
      leading, holdTrail, spoke := false, false, false;
      pend, lead, held := [], [], [];
    }

    method Emit(s: seq<Sample>) returns (ok: bool)
      modifies out
      ensures out.got == old(out.got) + s && out.refused == (old(out.refused) || !ok)
    {
      ok := true;
      if |s| > 0 { ok := out.Take(s); }
    }

    method BeginPiece(first: bool, last: bool)
      requires !out.refused
      modifies this
      ensures Valid() && join == Join(first, last, leadKeep, trailKeep) && piece == [] && before == out.got
    {
      hide Speaks, Emitted, Held, LeadBuffer, FullBlocks;
      NothingYet(Join(first, last, leadKeep, trailKeep));
      assert out.got + [] == out.got;
      leading := !first;
      holdTrail := !last;
      spoke := false;
      pend, lead, held := [], [], [];
      join := Join(first, last, leadKeep, trailKeep);
      piece, done, before := [], [], out.got;
    }

    /** Silence of a lead-in: only its end is remembered. */
    method HoldLead(b: seq<Sample>)
      modifies this`lead
      ensures lead == LastOf(old(lead) + b, leadKeep)
    {
      lead := lead + b;
      if |lead| > leadKeep { lead := lead[|lead| - leadKeep..]; }
    }

    /** The first speech of a later piece: the remembered lead-in goes out, faded in. */
    method ReleaseLead() returns (ok: bool)
      modifies this`leading, this`lead, out
      ensures out.got == old(out.got) + FadeIn(old(lead)) && out.refused == (old(out.refused) || !ok)
      ensures !leading && (ok ==> lead == [])
    {
      leading := false;
      lead := ApplyFadeIn(lead);
      ok := Emit(lead);
      if !ok { return; }
      lead := [];
    }

    /** Past the lead-in: silence after speech is held back, everything else goes through. */
    method Pass(b: seq<Sample>, silent: bool) returns (ok: bool)
      modifies this`spoke, this`held, out
      ensures out.refused == (old(out.refused) || !ok)
      ensures if holdTrail && old(spoke) && silent then
                ok && held == old(held) + b && out.got == old(out.got) && spoke
              else if holdTrail && old(spoke) then
                if ok then held == [] && out.got == old(out.got) + old(held) + b && spoke
                else out.got == old(out.got) + old(held) || out.got == old(out.got) + old(held) + b
              else held == old(held) && out.got == old(out.got) + b && spoke == (old(spoke) || !silent)
    {
      if holdTrail && spoke {
        if silent {
          held := held + b;
          return true;
        }
        ok := Emit(held);
        if !ok { return; }
        held := [];
      }
      spoke := spoke || !silent;
      ok := Emit(b);
    }

    /** One block. Even when the client refuses, it has received a prefix of the block's output. */
    method Block(b: seq<Sample>) returns (ok: bool)
      requires Buffers() && out.got == before + Emitted(join, done) && !out.refused
      modifies this`leading, this`spoke, this`lead, this`held, this`done, out
      ensures done == old(done) + [b] && ok == !out.refused
      ensures out.got <= before + Emitted(join, done)
      ensures ok ==> Buffers() && out.got == before + Emitted(join, done)
    {
      hide Silent, Speaks, Emitted, Held, LeadBuffer, FadeIn, LastOf;
      ghost var bs := done;
      Snoc(join, bs, b);
      Grouping(before, Emitted(join, bs), FadeIn(lead), b);
      Grouping(before, Emitted(join, bs), held, b);
      done := done + [b];
      var silent := IsSilent(b);
      if leading {
        if silent {
          HoldLead(b);
          return true;
        }
        ok := ReleaseLead();
        if !ok { return; }
      }
      ok := Pass(b, silent);
    }

    method Push(s: seq<Sample>) returns (ok: bool)
      requires Valid()
      modifies this`leading, this`spoke, this`pend, this`lead, this`held, this`piece, this`done, out
      ensures piece == old(piece) + s && ok == !out.refused
      ensures ok ==> Valid()
      ensures BLOCK * |done| <= |piece| && done == FullBlocks(piece, |done|)
      ensures out.got <= before + Emitted(join, done)
    {
      hide Buffers, Emitted, FullBlocks;
      pend := pend + s;
      piece := piece + s;
      ghost var m := |done|;
      assert pend == piece[BLOCK * m..];
      PrefixBlocks(old(piece), s, m);
      var off := 0;
      while off + BLOCK <= |pend|
        modifies this`leading, this`spoke, this`lead, this`held, this`done, out
        invariant Buffers() && out.got == before + Emitted(join, done) && !out.refused
        invariant 0 <= off <= |pend| && off == BLOCK * (|done| - m) && |done| >= m
        invariant done == FullBlocks(piece, |done|)
      {
        NextBlock(piece, m, off, |done|);
        ok := Block(pend[off..off + BLOCK]);
        if !ok { return; }
        off := off + BLOCK;
      }
      pend := pend[off..];
      return true;
    }

    /** Closes the piece: the short last block, then the part of the silence that is kept. */
    method EndPiece() returns (ok: bool)
      requires Valid()
      modifies this`leading, this`spoke, this`pend, this`lead, this`held, this`done, out
      ensures ok == !out.refused
      ensures out.got <= before + PieceOutput(join, piece)
      ensures ok ==> out.got == before + PieceOutput(join, piece)
    {
      hide Speaks, Emitted, Held, PieceOutput, FadeOut, FirstOf;
      assert |done| == |piece| / BLOCK;
      Closing(join, piece);
      ClosingGrows(join, piece);
      if |pend| > 0 {
        ok := Block(pend);
        if !ok {
          PrefixGoesOn(out.got, before, Emitted(join, done), PieceOutput(join, piece));
          return;
        }
      }
      assert done == Blocks(piece);
      pend := [];
      if holdTrail && |held| > 0 {
        var keep := if |held| < trailKeep then |held| else trailKeep;
        FirstOfCases(held, trailKeep);
        var kept := ApplyFadeOut(held[..keep]);
        ok := Emit(kept);
        if !ok { return; }
      }
      held := [];
      return true;
    }
  }

  lemma Grouping(a: seq<Sample>, b: seq<Sample>, c: seq<Sample>, d: seq<Sample>)
    ensures a + (b + c + d) == a + b + c + d && a + (b + d) == a + b + d && a + b + [] == a + b
    ensures a + b + c <= a + (b + c + d) && a + b <= a + (b + d) && b + [] == b
  {
    assert a + (b + c + d) == a + b + c + d;
    assert a + (b + d) == a + b + d;
  }

  /** All cases of one more block. */
  lemma Snoc(jn: Join, bs: seq<seq<Sample>>, b: seq<Sample>)
    ensures Speaks(bs + [b]) == (Speaks(bs) || !Silent(b))
    ensures !Speaks(bs) && Silent(b) ==>
              && Held(jn, bs + [b]) == []
              && Emitted(jn, bs + [b]) == Emitted(jn, bs) + (if jn.first then b else [])
              && LeadBuffer(jn, bs + [b]) == if jn.first then [] else LastOf(LeadBuffer(jn, bs) + b, jn.leadKeep)
    ensures Speaks(bs) || !Silent(b) ==> LeadBuffer(jn, bs + [b]) == []
    ensures !Speaks(bs) && !Silent(b) ==>
              && Held(jn, bs + [b]) == []
              && Emitted(jn, bs + [b]) == Emitted(jn, bs) + FadeIn(LeadBuffer(jn, bs)) + b
    ensures Speaks(bs) && Silent(b) ==>
              && Emitted(jn, bs + [b]) == Emitted(jn, bs) + (if jn.last then b else [])
              && Held(jn, bs + [b]) == if jn.last then [] else Held(jn, bs) + b
    ensures Speaks(bs) && !Silent(b) ==>
              && Held(jn, bs + [b]) == []
              && Emitted(jn, bs + [b]) == Emitted(jn, bs) + Held(jn, bs) + b
    ensures Speaks(bs) || jn.first ==> LeadBuffer(jn, bs) == []
    ensures !Speaks(bs) || jn.last ==> Held(jn, bs) == []
    ensures FadeIn([]) == []
  {
    hide Silent, Speaks, Emitted, Held, LeadBuffer, FadeIn, LastOf;
    SpeaksSnoc(bs, b);
    BufferCases(jn, bs);
    if Speaks(bs) {
      if Silent(b) { SilenceAfterSpeech(jn, bs, b); } else { SpeechGoesOn(jn, bs, b); }
    } else {
      if Silent(b) { StillSilent(jn, bs, b); } else { SpeechStarts(jn, bs, b); }
    }
  }

  /** What is out after some blocks stays: it is a prefix of all that goes out later. */
  lemma {:induction false} EmittedGrows(jn: Join, bs: seq<seq<Sample>>, more: seq<seq<Sample>>)
    ensures Emitted(jn, bs) <= Emitted(jn, bs + more)
    decreases |more|
  {
    hide Emitted, Silent, Speaks, Held, LeadBuffer, FadeIn, LastOf;
    if more == [] {
      assert bs + more == bs;
    } else {
      var n := |more| - 1;
      EmittedGrows(jn, bs, more[..n]);
      assert bs + more == bs + more[..n] + [more[n]];
      Snoc(jn, bs + more[..n], more[n]);
    }
  }

  lemma ClosingGrows(jn: Join, samples: seq<Sample>)
    ensures Emitted(jn, Blocks(samples)) <= PieceOutput(jn, samples)
  {
    hide Emitted, PieceOutput, FadeOut, FirstOf, Held;
    Closing(jn, samples);
  }

  /** What is out after the first m blocks of a piece is a prefix of the piece's whole output,
      however the piece goes on. */
  lemma EmittedIsPrefix(jn: Join, piece: seq<Sample>, more: seq<Sample>, m: nat)
    requires BLOCK * m <= |piece|
    ensures Emitted(jn, FullBlocks(piece, m)) <= PieceOutput(jn, piece + more)
  {
    hide Emitted, PieceOutput;
    var whole := piece + more;
    var bs := Blocks(whole);
    PrefixBlocks(piece, more, m);
    assert bs[..m] == FullBlocks(whole, m);
    assert bs == bs[..m] + bs[m..];
    EmittedGrows(jn, bs[..m], bs[m..]);
    ClosingGrows(jn, whole);
  }

  lemma PrefixGoesOn(got: seq<Sample>, before: seq<Sample>, a: seq<Sample>, b: seq<Sample>)
    requires got <= before + a && a <= b
    ensures got <= before + b
  {
    assert before + b == before + a + b[|a|..];
  }

  lemma BufferCases(jn: Join, bs: seq<seq<Sample>>)
    ensures Speaks(bs) || jn.first ==> LeadBuffer(jn, bs) == []
    ensures !Speaks(bs) || jn.last ==> Held(jn, bs) == []
    ensures FadeIn([]) == []
  {
  }

  lemma FirstOfCases(s: seq<Sample>, n: nat)
    ensures FirstOf(s, n) == s[..if |s| < n then |s| else n]
  {
  }

  lemma Closing(jn: Join, samples: seq<Sample>)
    ensures var bs := Blocks(samples);
            && PieceOutput(jn, samples)
               == Emitted(jn, bs) + (if jn.last then [] else FadeOut(FirstOf(Held(jn, bs), jn.trailKeep)))
            && FadeOut(FirstOf([], jn.trailKeep)) == []
  {
    BlocksSpell(samples);
  }

  method IsSilent(b: seq<Sample>) returns (silent: bool)
    ensures silent == Silent(b)
  {
    var e := 0.0;
    for i := 0 to |b|
      invariant e == Energy(b[..i])
    {
      assert b[..i + 1][..i] == b[..i];
      e := e + b[i] * b[i];
    }
    assert b[..|b|] == b;
    silent := |b| > 0 && e < THRESHOLD * THRESHOLD * |b| as real;
  }

  lemma WholeFades(s: seq<Sample>)
    ensures FadedIn(FadeIn(s), s, |s|) && FadedOut(FadeOut(s), s, |s|)
  {
    FadesIn(s, |s|);
    FadesOut(s, |s|);
    hide FadedIn, FadedOut, FadeIn, FadeOut;
    assert LastOf(s, |s|) == s && FirstOf(s, |s|) == s;
  }

  method ApplyFadeIn(s: seq<Sample>) returns (r: seq<Sample>)
    ensures r == FadeIn(s) && FadedIn(r, s, |s|)
  {
    hide FadedIn, FadedOut;
    r := s;
    var i := 0;
    while i < FADE && i < |r|
      invariant |r| == |s| && 0 <= i <= FADE && i <= |s|
      invariant forall k | 0 <= k < |s| :: r[k] == if k < i then FadeIn(s)[k] else s[k]
    {
      r := r[i := r[i] * (i as real / FADE as real)];
      i := i + 1;
    }
    WholeFades(s);
  }

  method ApplyFadeOut(s: seq<Sample>) returns (r: seq<Sample>)
    ensures r == FadeOut(s) && FadedOut(r, s, |s|)
  {
    hide FadedIn, FadedOut;
    r := s;
    var keep, i := |s|, 0;
    while i < FADE && i < keep
      invariant |r| == keep && 0 <= i <= FADE && i <= keep
      invariant forall k | 0 <= k < keep :: r[k] == if keep - 1 - k < i then FadeOut(s)[k] else s[k]
    {
      r := r[keep - 1 - i := r[keep - 1 - i] * (i as real / FADE as real)];
      i := i + 1;
    }
    WholeFades(s);
  }
}
