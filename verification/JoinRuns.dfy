/** A long text from the first piece to the last: what the client hears at the joins
    (tools/tts-server.cpp, the synthesize callback). */
module JoinRuns {
  import opened Seqs
  import opened JoinTrimmer

  const TRAIL_KEEP := 24000 * 30 / 100
  const LEAD_KEEP := 24000 * 15 / 100

  function JoinAt(k: nat, n: nat): Join {
    Join(k == 0, k + 1 == n, LEAD_KEEP, TRAIL_KEEP)
  }

  /** The output of pieces a..b of a text of n pieces. */
  function Session(pieces: seq<seq<Sample>>, a: nat, b: nat): seq<Sample>
    requires a <= b <= |pieces|
    decreases b
  {
    if a == b then [] else Session(pieces, a, b - 1) + PieceOutput(JoinAt(b - 1, |pieces|), pieces[b - 1])
  }

  function Joined(audio: seq<seq<seq<Sample>>>): (r: seq<seq<Sample>>)
    ensures |r| == |audio| && forall k | 0 <= k < |r| :: r[k] == Concat(audio[k])
  {
    seq(|audio|, k requires 0 <= k < |audio| => Concat(audio[k]))
  }

  /** What the client should receive: a single piece untouched, several through the filter. */
  function Output(audio: seq<seq<seq<Sample>>>): seq<Sample> {
    if |audio| == 1 then Concat(audio[0]) else Session(Joined(audio), 0, |audio|)
  }

  /** The piece loop. audio[k] lists what the pipeline hands over for piece k, call by call;
      status[k] is whether its synthesis ends well. */
  method SynthesizePieces(audio: seq<seq<seq<Sample>>>, status: seq<bool>, client: Client) returns (ok: bool)
    requires |status| == |audio| && !client.refused
    modifies client
    ensures client.got <= old(client.got) + Output(audio)
    ensures ok ==> client.got == old(client.got) + Output(audio) && forall k | 0 <= k < |status| :: status[k]
    ensures !ok ==> client.refused || exists k | 0 <= k < |status| :: !status[k]
  {
    hide PieceOutput, FullBlocks, Session;
    if |audio| == 1 {
      ok := PassThrough(audio[0], client);
      return ok && status[0];
    }
    var trim := new Trimmer(client, LEAD_KEEP, TRAIL_KEEP);
    ghost var start := client.got;
    SessionNone(Joined(audio));
    assert start + [] == start;
    for k := 0 to |audio|
      invariant !client.refused && client.got == start + Session(Joined(audio), 0, k)
      invariant forall j | 0 <= j < k :: status[j]
      invariant fresh(trim) && trim.out == client && trim.leadKeep == LEAD_KEEP && trim.trailKeep == TRAIL_KEEP
    {
      SessionSnoc(Joined(audio), k, start);
      ok := OnePiece(trim, k == 0, k + 1 == |audio|, audio[k], status[k]);
      if !ok {
        SessionGrows(Joined(audio), k + 1, |audio|);
        PrefixGoesOn(client.got, start, Session(Joined(audio), 0, k + 1), Output(audio));
        return;
      }
    }
    return true;
  }

  lemma SessionNone(pieces: seq<seq<Sample>>)
    ensures Session(pieces, 0, 0) == []
  {
  }

  lemma SessionSnoc(pieces: seq<seq<Sample>>, k: nat, start: seq<Sample>)
    requires k < |pieces|
    ensures start + Session(pieces, 0, k + 1)
         == start + Session(pieces, 0, k) + PieceOutput(JoinAt(k, |pieces|), pieces[k])
  {
    hide PieceOutput;
    var (was, rest) := (Session(pieces, 0, k), PieceOutput(JoinAt(k, |pieces|), pieces[k]));
    assert start + (was + rest) == start + was + rest;
  }

  lemma {:induction false} SessionGrows(pieces: seq<seq<Sample>>, k: nat, n: nat)
    requires k <= n <= |pieces|
    ensures Session(pieces, 0, k) <= Session(pieces, 0, n)
    decreases n
  {
    hide PieceOutput;
    if k < n { SessionGrows(pieces, k, n - 1); }
  }

  /** One turn of the loop: begin_piece, the synthesis with its callbacks, end_piece. */
  method OnePiece(trim: Trimmer, first: bool, last: bool, chunks: seq<seq<Sample>>, status: bool) returns (ok: bool)
    requires !trim.out.refused
    modifies trim, trim.out
    ensures ok ==> status && !trim.out.refused
    ensures ok ==> trim.out.got == old(trim.out.got)
                   + PieceOutput(Join(first, last, trim.leadKeep, trim.trailKeep), Concat(chunks))
    ensures !ok ==> trim.out.refused || !status
    ensures trim.out.got <= old(trim.out.got)
                            + PieceOutput(Join(first, last, trim.leadKeep, trim.trailKeep), Concat(chunks))
  {
    hide PieceOutput, FullBlocks;
    trim.BeginPiece(first, last);
    ok := PushAll(trim, chunks);
    if !ok || !status { return false; }
    ok := trim.EndPiece();
  }

  method PassThrough(chunks: seq<seq<Sample>>, client: Client) returns (ok: bool)
    requires !client.refused
    modifies client
    ensures ok == !client.refused
    ensures client.got <= old(client.got) + Concat(chunks)
    ensures ok ==> client.got == old(client.got) + Concat(chunks)
  {
    for c := 0 to |chunks|
      invariant !client.refused && client.got == old(client.got) + Concat(chunks[..c])
    {
      assert chunks[..c + 1] == chunks[..c] + [chunks[c]];
      ConcatSnoc(chunks[..c], chunks[c]);
      ConcatSplit(chunks, c + 1);
      ok := client.Take(chunks[c]);
      if !ok {
        PrefixGoesOn(client.got, old(client.got), Concat(chunks[..c + 1]), Concat(chunks));
        return;
      }
    }
    assert chunks[..|chunks|] == chunks;
    return true;
  }

  lemma ConcatSplit(chunks: seq<seq<Sample>>, c: nat)
    requires c <= |chunks|
    ensures Concat(chunks) == Concat(chunks[..c]) + Concat(chunks[c..])
  {
    hide Concat;
    ConcatAppend(chunks[..c], chunks[c..]);
    assert chunks == chunks[..c] + chunks[c..];
  }

  lemma OutSoFar(trim: Trimmer, more: seq<Sample>)
    requires BLOCK * |trim.done| <= |trim.piece| && trim.done == FullBlocks(trim.piece, |trim.done|)
    requires trim.out.got <= trim.before + Emitted(trim.join, trim.done)
    ensures trim.out.got <= trim.before + PieceOutput(trim.join, trim.piece + more)
  {
    hide PieceOutput, FullBlocks, Emitted;
    EmittedIsPrefix(trim.join, trim.piece, more, |trim.done|);
    PrefixGoesOn(trim.out.got, trim.before, Emitted(trim.join, trim.done), PieceOutput(trim.join, trim.piece + more));
  }

  method PushAll(trim: Trimmer, chunks: seq<seq<Sample>>) returns (ok: bool)
    requires trim.Valid() && trim.piece == []
    modifies trim`leading, trim`spoke, trim`pend, trim`lead, trim`held, trim`piece, trim`done, trim.out
    ensures ok == !trim.out.refused
    ensures ok ==> trim.Valid() && trim.piece == Concat(chunks)
    ensures trim.out.got <= trim.before + PieceOutput(trim.join, Concat(chunks))
  {
    hide PieceOutput, FullBlocks, Emitted, Trimmer.Buffers;
    for c := 0 to |chunks|
      invariant trim.Valid() && trim.piece == Concat(chunks[..c])
    {
      assert chunks[..c + 1] == chunks[..c] + [chunks[c]];
      ConcatSnoc(chunks[..c], chunks[c]);
      ok := trim.Push(chunks[c]);
      if !ok {
        ConcatSplit(chunks, c + 1);
        OutSoFar(trim, Concat(chunks[c + 1..]));
        return;
      }
    }
    assert chunks[..|chunks|] == chunks;
    OutSoFar(trim, []);
    assert trim.piece + [] == trim.piece;
    return true;
  }

  /** How the pipeline cuts a piece into calls makes no difference. */
  lemma CutsDoNotMatter(audio: seq<seq<seq<Sample>>>, other: seq<seq<seq<Sample>>>)
    requires |audio| == |other| && forall k | 0 <= k < |audio| :: Concat(audio[k]) == Concat(other[k])
    ensures Output(audio) == Output(other)
  {
    assert Joined(audio) == Joined(other);
  }

  // ----- what survives --------------------------------------------------------------------

  /** A speaking piece is its lead, its body and its trail: the body is a contiguous part of the
      piece's own samples, from the first speech to the last, untouched. */
  lemma PieceParts(jn: Join, samples: seq<Sample>)
    requires Speaks(Blocks(samples))
    ensures var bs := Blocks(samples);
            && PieceOutput(jn, samples) == LeadOf(jn, bs) + BodyOf(bs) + TrailOf(jn, bs)
            && samples == Concat(bs[..Onset(bs)]) + BodyOf(bs) + SilenceAfter(bs)
            && (jn.first ==> LeadOf(jn, bs) == Concat(bs[..Onset(bs)]))
            && (jn.last ==> TrailOf(jn, bs) == SilenceAfter(bs))
            && (!jn.first ==> |LeadOf(jn, bs)| <= jn.leadKeep)
            && (!jn.last ==> |TrailOf(jn, bs)| <= jn.trailKeep)
            && (!jn.first ==> FadedIn(LeadOf(jn, bs), Concat(bs[..Onset(bs)]), jn.leadKeep))
            && (!jn.last ==> FadedOut(TrailOf(jn, bs), SilenceAfter(bs), jn.trailKeep))
  {
    hide Speaks, Onset, Offset, FadeIn, FadeOut, LastOf, FirstOf, Blocks, FadedIn, FadedOut;
    var bs := Blocks(samples);
    FadesIn(Concat(bs[..Onset(bs)]), jn.leadKeep);
    FadesOut(SilenceAfter(bs), jn.trailKeep);
    BlocksSpell(samples);
    OnsetBeforeOffset(bs);
    ConcatThree(bs, Onset(bs), Offset(bs));
  }

  lemma ConcatThree(bs: seq<seq<Sample>>, i: nat, j: nat)
    requires i <= j <= |bs|
    ensures Concat(bs) == Concat(bs[..i]) + Concat(bs[i..j]) + Concat(bs[j..])
  {
    hide Concat;
    ConcatSplit(bs, j);
    ConcatSplit(bs[..j], i);
    assert bs[..j][..i] == bs[..i] && bs[..j][i..] == bs[i..j];
  }

  lemma {:induction false} SessionSplit(pieces: seq<seq<Sample>>, a: nat, m: nat, b: nat)
    requires a <= m <= b <= |pieces|
    ensures Session(pieces, a, b) == Session(pieces, a, m) + Session(pieces, m, b)
    decreases b
  {
    hide PieceOutput;
    if m == b {
      assert Session(pieces, a, m) + [] == Session(pieces, a, m);
    } else {
      SessionSplit(pieces, a, m, b - 1);
      var (x, y) := (Session(pieces, a, m), Session(pieces, m, b - 1));
      var z := PieceOutput(JoinAt(b - 1, |pieces|), pieces[b - 1]);
      assert x + (y + z) == x + y + z;
    }
  }

  /** Pieces without speech after the first one are not heard at all. */
  lemma {:induction false} SilentPiecesVanish(pieces: seq<seq<Sample>>, a: nat, b: nat)
    requires 0 < a <= b <= |pieces| && forall k | a <= k < b :: !Speaks(Blocks(pieces[k]))
    ensures Session(pieces, a, b) == []
    decreases b
  {
    hide Speaks, Blocks;
    if a < b {
      SilentPiecesVanish(pieces, a, b - 1);
      assert !Speaks(Blocks(pieces[b - 1]));
      SilentPiece(JoinAt(b - 1, |pieces|), pieces[b - 1]);
    }
  }

  lemma SilentPiece(jn: Join, samples: seq<Sample>)
    requires !jn.first && !Speaks(Blocks(samples))
    ensures PieceOutput(jn, samples) == []
  {
  }

  /** A first piece without speech is heard as it is. */
  lemma SilentFirstPasses(jn: Join, samples: seq<Sample>)
    requires jn.first && !Speaks(Blocks(samples))
    ensures PieceOutput(jn, samples) == samples
  {
  }

  /** The join between two speaking pieces with nothing but silence between them: bodies intact on
      both sides, and in between the first 0.3 s of the one piece's closing silence, faded out, and the
      last 0.15 s of the other's opening silence, faded in. */
  lemma JoinIsShort(pieces: seq<seq<Sample>>, p: nat, q: nat)
    returns (pre: seq<Sample>, tail: seq<Sample>, head: seq<Sample>, post: seq<Sample>)
    requires p < q < |pieces| && Speaks(Blocks(pieces[p])) && Speaks(Blocks(pieces[q]))
    requires forall k | p < k < q :: !Speaks(Blocks(pieces[k]))
    ensures Session(pieces, 0, |pieces|)
         == pre + BodyOf(Blocks(pieces[p])) + (tail + head) + BodyOf(Blocks(pieces[q])) + post
    ensures |tail + head| <= 10800
    ensures FadedOut(tail, SilenceAfter(Blocks(pieces[p])), 7200)
    ensures FadedIn(head, Concat(Blocks(pieces[q])[..Onset(Blocks(pieces[q]))]), 3600)
  {
    hide FadedIn, FadedOut, Speaks, Blocks, BodyOf, LeadOf, TrailOf, PieceOutput, SilenceAfter, Onset, Session, Concat;
    var n := |pieces|;
    var (jp, jq) := (JoinAt(p, n), JoinAt(q, n));
    var (bp, bq) := (Blocks(pieces[p]), Blocks(pieces[q]));
    PieceParts(jp, pieces[p]);
    PieceParts(jq, pieces[q]);
    SessionSplit(pieces, 0, p, n);
    SessionSplit(pieces, p, p + 1, n);
    SessionSplit(pieces, p + 1, q, n);
    SessionSplit(pieces, q, q + 1, n);
    SilentPiecesVanish(pieces, p + 1, q);
    SessionOne(pieces, p);
    SessionOne(pieces, q);
    pre := Session(pieces, 0, p) + LeadOf(jp, bp);
    tail, head := TrailOf(jp, bp), LeadOf(jq, bq);
    post := TrailOf(jq, bq) + Session(pieces, q + 1, n);
    Regroup(Session(pieces, 0, p), LeadOf(jp, bp), BodyOf(bp), TrailOf(jp, bp),
            LeadOf(jq, bq), BodyOf(bq), TrailOf(jq, bq), Session(pieces, q + 1, n));
  }

  lemma SessionOne(pieces: seq<seq<Sample>>, k: nat)
    requires k < |pieces|
    ensures Session(pieces, k, k + 1) == PieceOutput(JoinAt(k, |pieces|), pieces[k])
  {
    hide PieceOutput;
    assert Session(pieces, k, k) == [];
  }

  lemma Regroup(s: seq<Sample>, l: seq<Sample>, b: seq<Sample>, t: seq<Sample>,
                l': seq<Sample>, b': seq<Sample>, t': seq<Sample>, r: seq<Sample>)
    ensures s + ((l + b + t) + ([] + ((l' + b' + t') + r))) == (s + l) + b + (t + l') + b' + (t' + r)
  {
  }
}
