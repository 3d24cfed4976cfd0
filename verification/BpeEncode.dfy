/** From text to token ids and back (src/bpe.h encode_chunk and bpe_encode). */
module BpeEncode {
  import opened Seqs
  import opened BpeBytes
  import opened BpePreTokenize
  import opened BpeMerge

  datatype Tokenizer = Tokenizer(
    vocab: map<Token, int>, merges: map<Token, int>, byte2str: seq<Token>, eosId: int,
    specials: seq<(Token, int)>)

  predicate TableOk(tok: Tokenizer) {
    |tok.byte2str| == 256 && forall b: Byte :: tok.byte2str[b] == Symbol(b)
  }

  // ----- one chunk ------------------------------------------------------------------------

  function Symbols(chunk: seq<Byte>): (r: seq<Token>)
    ensures |r| == |chunk| && forall k | 0 <= k < |r| :: r[k] == Symbol(chunk[k])
  {
    seq(|chunk|, k requires 0 <= k < |chunk| => Symbol(chunk[k]))
  }

  /** The ids of one merged piece: its own, or the fallback's, byte by byte. */
  function PieceIds(tok: Tokenizer, piece: Token): seq<int> {
    if piece in tok.vocab then [tok.vocab[piece]] else FallbackIds(tok, piece)
  }

  function FallbackIds(tok: Tokenizer, piece: Token): seq<int> {
    if piece == [] then []
    else (if [piece[0]] in tok.vocab then [tok.vocab[[piece[0]]]] else []) + FallbackIds(tok, piece[1..])
  }

  function AllPieceIds(tok: Tokenizer, pieces: seq<Token>): seq<int> {
    if pieces == [] then [] else PieceIds(tok, pieces[0]) + AllPieceIds(tok, pieces[1..])
  }

  ghost function ChunkIds(tok: Tokenizer, chunk: seq<Byte>): seq<int> {
    AllPieceIds(tok, Merged(tok.merges, Symbols(chunk)))
  }

  method ByteLevelEncode(tok: Tokenizer, text: seq<Byte>) returns (out: Token)
    requires TableOk(tok)
    ensures out == ByteLevel(text)
  {
    out := [];
    for i := 0 to |text|
      invariant out + ByteLevel(text[i..]) == ByteLevel(text)
    {
      assert text[i..][0] == text[i] && text[i..][1..] == text[i + 1..];
      assert out + (Symbol(text[i]) + ByteLevel(text[i + 1..])) == out + Symbol(text[i]) + ByteLevel(text[i + 1..]);
      out := out + tok.byte2str[text[i]];
    }
  }

  /** Reading the symbol string one UTF-8 character at a time finds exactly one symbol per byte. */
  method SplitSymbols(encoded: Token, ghost chunk: seq<Byte>) returns (symbols: seq<Token>)
    requires encoded == ByteLevel(chunk)
    ensures symbols == Symbols(chunk)
  {
    hide Symbol;
    symbols := [];
    var i := 0;
    ghost var k := 0;
    while i < |encoded|
      invariant i <= |encoded| && k <= |chunk| && encoded[i..] == ByteLevel(chunk[k..])
      invariant symbols == Symbols(chunk[..k])
      decreases |encoded| - i
    {
      assert chunk[k..] != [];
      SymbolIsOneChar(chunk[k], []);
      assert encoded[i..] == Symbol(chunk[k]) + ByteLevel(chunk[k + 1..]) by {
        assert chunk[k..][0] == chunk[k] && chunk[k..][1..] == chunk[k + 1..];
      }
      var adv := Adv(encoded[i]);
      assert encoded[i] == encoded[i..][0] == Symbol(chunk[k])[0];
      assert encoded[i..i + adv] == encoded[i..][..adv] == Symbol(chunk[k]);
      assert encoded[i + adv..] == encoded[i..][adv..];
      assert chunk[..k + 1] == chunk[..k] + [chunk[k]];
      assert Symbols(chunk[..k + 1]) == Symbols(chunk[..k]) + [Symbol(chunk[k])];
      symbols := symbols + [encoded[i..i + adv]];
      i, k := i + adv, k + 1;
    }
    SymbolsEnd(chunk, k);
  }

  lemma SymbolsEnd(chunk: seq<Byte>, k: nat)
    requires k <= |chunk| && ByteLevel(chunk[k..]) == []
    ensures chunk[..k] == chunk
  {
    if chunk[k..] != [] { SymbolIsOneChar(chunk[k..][0], []); }
  }

  /** The fallback of an unknown piece: the ids of those of its bytes that are tokens. */
  method EncodeFallback(tok: Tokenizer, piece: Token, before: seq<int>) returns (ids: seq<int>)
    ensures ids == before + FallbackIds(tok, piece)
  {
    ids := before;
    for c := 0 to |piece|
      invariant ids + FallbackIds(tok, piece[c..]) == before + FallbackIds(tok, piece)
    {
      assert piece[c..][0] == piece[c] && piece[c..][1..] == piece[c + 1..];
      if [piece[c]] in tok.vocab { ids := ids + [tok.vocab[[piece[c]]]]; }
    }
  }

  /** Appends the ids of one chunk. unknown counts the pieces that took the fallback. */
  method EncodeChunk(tok: Tokenizer, chunk: seq<Byte>, before: seq<int>) returns (ids: seq<int>, unknown: nat)
    requires TableOk(tok)
    ensures ids == before + ChunkIds(tok, chunk)
    ensures unknown == 0 <==> forall w | w in Merged(tok.merges, Symbols(chunk)) :: w in tok.vocab
  {
    hide PieceIds, FallbackIds, Symbols, Merged;
    var encoded := ByteLevelEncode(tok, chunk);
    var symbols := SplitSymbols(encoded, chunk);
    var merged := BpeMergeLoop(tok.merges, symbols);
    ids, unknown := before, 0;
    for k := 0 to |merged|
      invariant ids == before + AllPieceIds(tok, merged[..k])
      invariant unknown == 0 <==> forall j | 0 <= j < k :: merged[j] in tok.vocab
    {
      ghost var was := ids;
      if merged[k] in tok.vocab {
        ids := ids + [tok.vocab[merged[k]]];
      } else {
        unknown := unknown + 1;
        ids := EncodeFallback(tok, merged[k], ids);
      }
      PieceIdsBy(tok, merged[k]);
      assert ids == was + PieceIds(tok, merged[k]);
      AllPieceIdsSnoc(tok, merged, k);
    }
    assert merged[..|merged|] == merged;
  }

  lemma PieceIdsBy(tok: Tokenizer, piece: Token)
    ensures PieceIds(tok, piece) == if piece in tok.vocab then [tok.vocab[piece]] else FallbackIds(tok, piece)
  {
  }

  lemma {:induction false} AllPieceIdsAppend(tok: Tokenizer, a: seq<Token>, b: seq<Token>)
    ensures AllPieceIds(tok, a + b) == AllPieceIds(tok, a) + AllPieceIds(tok, b)
  {
    if a == [] {
      assert a + b == b;
    } else {
      assert (a + b)[1..] == a[1..] + b;
      AllPieceIdsAppend(tok, a[1..], b);
    }
  }

  lemma AllPieceIdsSnoc(tok: Tokenizer, pieces: seq<Token>, k: nat)
    requires k < |pieces|
    ensures AllPieceIds(tok, pieces[..k + 1]) == AllPieceIds(tok, pieces[..k]) + PieceIds(tok, pieces[k])
  {
    assert pieces[..k + 1] == pieces[..k] + [pieces[k]];
    AllPieceIdsAppend(tok, pieces[..k], [pieces[k]]);
    assert AllPieceIds(tok, [pieces[k]]) == PieceIds(tok, pieces[k]) + AllPieceIds(tok, []);
  }

  // ----- a segment between specials -------------------------------------------------------

  ghost function AllChunkIds(tok: Tokenizer, chunks: seq<seq<Byte>>): seq<int> {
    if chunks == [] then [] else ChunkIds(tok, chunks[0]) + AllChunkIds(tok, chunks[1..])
  }

  ghost function SegmentIds(tok: Tokenizer, seg: seq<Byte>): seq<int>
    requires Scannable(seg)
  {
    AllChunkIds(tok, Chunks(seg, 0))
  }

  method EncodeSegment(tok: Tokenizer, seg: seq<Byte>, before: seq<int>) returns (ids: seq<int>)
    requires TableOk(tok) && Scannable(seg)
    ensures ids == before + SegmentIds(tok, seg)
  {
    hide ChunkIds, Scannable, Chunks;
    ids := before;
    if seg == [] { EmptySegment(tok); return; }
    var chunks := Gpt2PreTokenize(seg);
    for k := 0 to |chunks|
      invariant ids + AllChunkIds(tok, chunks[k..]) == before + AllChunkIds(tok, chunks)
    {
      assert chunks[k..][0] == chunks[k] && chunks[k..][1..] == chunks[k + 1..];
      ghost var was, c, rest := ids, ChunkIds(tok, chunks[k]), AllChunkIds(tok, chunks[k + 1..]);
      assert was + (c + rest) == was + c + rest;
      var unknown;
      ids, unknown := EncodeChunk(tok, chunks[k], ids);
    }
    assert chunks[|chunks|..] == [];
  }

  // ----- specials -------------------------------------------------------------------------

  predicate OccursAt(text: seq<Byte>, sub: Token, p: nat) {
    p + |sub| <= |text| && text[p..p + |sub|] == sub
  }

  /** First occurrence at or after pos. */
  function Find(text: seq<Byte>, sub: Token, pos: nat): (r: Option<nat>)
    ensures r.Some? ==> pos <= r.value && OccursAt(text, sub, r.value)
    ensures forall p | pos <= p && OccursAt(text, sub, p) :: r.Some? && r.value <= p
    decreases |text| - pos
  {
    if OccursAt(text, sub, pos) then Some(pos)
    else if pos >= |text| then None
    else Find(text, sub, pos + 1)
  }

  /** Special k occurs at p, and p is the leftmost place any special occurs from pos on; of
      several that start there the one registered first wins. */
  ghost predicate LeftmostAt(tok: Tokenizer, text: seq<Byte>, pos: nat, p: nat, k: nat) {
    && pos <= p && k < |tok.specials| && OccursAt(text, tok.specials[k].0, p)
    && (forall j, q | 0 <= j < |tok.specials| && pos <= q && OccursAt(text, tok.specials[j].0, q) :: p <= q)
    && (forall j | 0 <= j < k :: !OccursAt(text, tok.specials[j].0, p))
  }

  method FindLeftmost(tok: Tokenizer, text: seq<Byte>, pos: nat) returns (p: nat, k: int)
    ensures -1 <= k < |tok.specials|
    ensures k >= 0 ==> LeftmostAt(tok, text, pos, p, k)
    ensures k < 0 ==> forall j, q | 0 <= j < |tok.specials| && pos <= q :: !OccursAt(text, tok.specials[j].0, q)
  {
    p, k := 0, -1;
    for i := 0 to |tok.specials|
      invariant -1 <= k < i
      invariant k >= 0 ==> pos <= p && OccursAt(text, tok.specials[k].0, p)
      invariant k >= 0 ==> forall j, q | 0 <= j < i && pos <= q && OccursAt(text, tok.specials[j].0, q) :: p <= q
      invariant k >= 0 ==> forall j | 0 <= j < k :: !OccursAt(text, tok.specials[j].0, p)
      invariant k < 0 ==> forall j, q | 0 <= j < i && pos <= q :: !OccursAt(text, tok.specials[j].0, q)
    {
      var found := Find(text, tok.specials[i].0, pos);
      if found.Some? && (k < 0 || found.value < p) {
        p, k := found.value, i;
      }
    }
  }

  /** Registered specials are non-empty and start a character. */
  predicate SpecialsOk(tok: Tokenizer) {
    forall k | 0 <= k < |tok.specials| :: tok.specials[k].0 != [] && !IsCont(tok.specials[k].0[0])
  }

  lemma SegmentScannable(tok: Tokenizer, text: seq<Byte>, pos: nat, p: nat, k: nat)
    requires Shaped(text) && SpecialsOk(tok) && LeftmostAt(tok, text, pos, p, k)
    ensures Scannable(text[pos..p])
  {
    assert text[p] == text[p..p + |tok.specials[k].0|][0];
    ShapedCut(text, pos, p);
  }

  /** What the whole encoder produces from byte pos on. */
  ghost function TextIds(tok: Tokenizer, text: seq<Byte>, pos: nat): seq<int>
    requires Shaped(text) && SpecialsOk(tok) && pos <= |text|
    decreases |text| - pos
  {
    if pos == |text| then []
    else if exists p: nat, k: nat :: LeftmostAt(tok, text, pos, p, k) then
      var p: nat, k: nat :| LeftmostAt(tok, text, pos, p, k);
      SegmentScannable(tok, text, pos, p, k);
      SegmentIds(tok, text[pos..p]) + [tok.specials[k].1] + TextIds(tok, text, p + |tok.specials[k].0|)
    else
      ShapedCut(text, pos, |text|);
      SegmentIds(tok, text[pos..|text|])
  }

  lemma LeftmostUnique(tok: Tokenizer, text: seq<Byte>, pos: nat, p: nat, k: nat, p': nat, k': nat)
    requires LeftmostAt(tok, text, pos, p, k) && LeftmostAt(tok, text, pos, p', k')
    ensures p == p' && k == k'
  {
  }

  /** The splitter's rule: up to the first place where a special stands - the one registered first when
      several do - the text is encoded, then the special's id follows, then what the rest gives. */
  lemma SpecialRule(tok: Tokenizer, text: seq<Byte>, pos: nat, p: nat, k: nat)
    requires Shaped(text) && SpecialsOk(tok) && pos <= p && k < |tok.specials|
    requires p + |tok.specials[k].0| <= |text| && text[p..p + |tok.specials[k].0|] == tok.specials[k].0
    requires forall j, q | 0 <= j < |tok.specials| && pos <= q < p :: !OccursAt(text, tok.specials[j].0, q)
    requires forall j | 0 <= j < k :: !OccursAt(text, tok.specials[j].0, p)
    ensures Scannable(text[pos..p])
    ensures TextIds(tok, text, pos)
         == SegmentIds(tok, text[pos..p]) + [tok.specials[k].1] + TextIds(tok, text, p + |tok.specials[k].0|)
  {
    assert LeftmostAt(tok, text, pos, p, k);
    SegmentScannable(tok, text, pos, p, k);
    hide SegmentIds, Scannable, Shaped;
    TextIdsUnfold(tok, text, pos, p, k);
  }

  /** Without a special from pos on, all of it is one segment. */
  lemma PlainRule(tok: Tokenizer, text: seq<Byte>, pos: nat)
    requires Shaped(text) && SpecialsOk(tok) && pos < |text|
    requires forall j, q | 0 <= j < |tok.specials| && pos <= q :: !OccursAt(text, tok.specials[j].0, q)
    ensures Scannable(text[pos..]) && TextIds(tok, text, pos) == SegmentIds(tok, text[pos..])
  {
    assert text[pos..|text|] == text[pos..];
    TextIdsLast(tok, text, pos);
  }

  /** A piece is one id when it is a token; otherwise its bytes are looked up one by one, and those that
      are no tokens are dropped. */
  lemma PieceRule(tok: Tokenizer, piece: Token, c: Byte)
    ensures piece in tok.vocab ==> PieceIds(tok, piece) == [tok.vocab[piece]]
    ensures piece !in tok.vocab ==> PieceIds(tok, piece) == FallbackIds(tok, piece)
    ensures FallbackIds(tok, []) == []
    ensures FallbackIds(tok, [c] + piece) == (if [c] in tok.vocab then [tok.vocab[[c]]] else []) + FallbackIds(tok, piece)
  {
    assert ([c] + piece)[1..] == piece;
  }

  method BpeEncodeText(tok: Tokenizer, text: seq<Byte>, addEos: bool) returns (ids: seq<int>)
    requires TableOk(tok) && SpecialsOk(tok) && Shaped(text)
    ensures ids == TextIds(tok, text, 0) + (if addEos && tok.eosId >= 0 then [tok.eosId] else [])
  {
    hide *;
    ids := [];
    var pos := 0;
    while pos < |text|
      invariant pos <= |text| && ids + TextIds(tok, text, pos) == TextIds(tok, text, 0)
      decreases |text| - pos
    {
      ghost var was := ids;
      var best, k := FindLeftmost(tok, text, pos);
      if k < 0 {
        TextIdsLast(tok, text, pos);
        ids := EncodeSegment(tok, text[pos..|text|], ids);
        pos := |text|;
        break;
      }
      TextIdsStep(tok, text, pos, best, k, was);
      if best > pos { ids := EncodeSegment(tok, text[pos..best], ids); }
      ids := ids + [tok.specials[k].1];
      pos := best + |tok.specials[k].0|;
    }
    TextIdsEnd(tok, text);
    if addEos && tok.eosId >= 0 { ids := ids + [tok.eosId]; }
  }

  lemma TextIdsEnd(tok: Tokenizer, text: seq<Byte>)
    requires Shaped(text) && SpecialsOk(tok)
    ensures TextIds(tok, text, |text|) == []
  {
  }

  lemma TextIdsLast(tok: Tokenizer, text: seq<Byte>, pos: nat)
    requires Shaped(text) && SpecialsOk(tok) && pos < |text|
    requires forall j, q | 0 <= j < |tok.specials| && pos <= q :: !OccursAt(text, tok.specials[j].0, q)
    ensures Scannable(text[pos..|text|]) && TextIds(tok, text, pos) == SegmentIds(tok, text[pos..|text|])
    ensures TextIds(tok, text, |text|) == []
  {
    ShapedCut(text, pos, |text|);
  }

  lemma TextIdsStep(tok: Tokenizer, text: seq<Byte>, pos: nat, p: nat, k: nat, before: seq<int>)
    requires Shaped(text) && SpecialsOk(tok) && pos < |text| && LeftmostAt(tok, text, pos, p, k)
    ensures pos <= p < p + |tok.specials[k].0| <= |text| && Scannable(text[pos..p])
    ensures before + TextIds(tok, text, pos)
         == before + SegmentIds(tok, text[pos..p]) + [tok.specials[k].1] + TextIds(tok, text, p + |tok.specials[k].0|)
    ensures p == pos ==> SegmentIds(tok, text[pos..p]) == []
  {
    hide TextIds, SegmentIds, Scannable, Shaped;
    SegmentScannable(tok, text, pos, p, k);
    TextIdsUnfold(tok, text, pos, p, k);
    var (a, b, c) := (SegmentIds(tok, text[pos..p]), [tok.specials[k].1], TextIds(tok, text, p + |tok.specials[k].0|));
    assert before + (a + b + c) == before + a + b + c;
    if p == pos {
      assert text[pos..p] == [];
      EmptySegment(tok);
    }
  }

  lemma EmptySegment(tok: Tokenizer)
    ensures Scannable([]) && SegmentIds(tok, []) == []
  {
  }

  lemma TextIdsUnfold(tok: Tokenizer, text: seq<Byte>, pos: nat, p: nat, k: nat)
    requires Shaped(text) && SpecialsOk(tok) && pos < |text| && LeftmostAt(tok, text, pos, p, k)
    requires Scannable(text[pos..p])
    ensures TextIds(tok, text, pos)
         == SegmentIds(tok, text[pos..p]) + [tok.specials[k].1] + TextIds(tok, text, p + |tok.specials[k].0|)
  {
    hide SegmentIds, Shaped, Scannable, LeftmostAt;
    forall p': nat, k': nat | LeftmostAt(tok, text, pos, p', k') ensures p' == p && k' == k {
      LeftmostUnique(tok, text, pos, p, k, p', k');
    }
  }
}
