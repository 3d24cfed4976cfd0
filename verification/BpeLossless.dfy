/** Reading the ids back gives the text: byte table, scanner, merge loop, vocabulary lookup and
    special splitting together lose nothing (src/bpe.h bpe_encode). */
module BpeLossless {
  import opened Seqs
  import opened BpeBytes
  import opened BpePreTokenize
  import opened BpeMerge
  import opened BpeEncode

  /** A vocabulary a byte-level BPE training run leaves behind: every byte symbol and every merge
      product is a token, and tokens have their own ids. */
  ghost predicate VocabOk(tok: Tokenizer) {
    && (forall b: Byte :: Symbol(b) in tok.vocab)
    && (forall a: Token, b: Token | Key(a, b) in tok.merges :: a + b in tok.vocab)
    && (forall p, q | p in tok.vocab && q in tok.vocab && tok.vocab[p] == tok.vocab[q] :: p == q)
  }

  /** A special's id stands for the special's own text and nothing else. */
  ghost predicate SpecialIdsOk(tok: Tokenizer) {
    && (forall j, k | 0 <= j < |tok.specials| && 0 <= k < |tok.specials| && tok.specials[j].1 == tok.specials[k].1 ::
          tok.specials[j].0 == tok.specials[k].0)
    && (forall k, bs: seq<Byte> | 0 <= k < |tok.specials| && IdSpells(tok, tok.specials[k].1, bs) ::
          bs == tok.specials[k].0)
  }

  /** id is the vocabulary id of the symbols of bs. */
  ghost predicate IdSpells(tok: Tokenizer, id: int, bs: seq<Byte>) {
    ByteLevel(bs) in tok.vocab && tok.vocab[ByteLevel(bs)] == id
  }

  ghost predicate IsSpecialId(tok: Tokenizer, id: int, str: Token) {
    exists k | 0 <= k < |tok.specials| :: tok.specials[k] == (str, id)
  }

  /** Detokenizing one id: a special verbatim, any other token through the inverse byte table. */
  ghost function DecodeId(tok: Tokenizer, id: int): seq<Byte> {
    if exists str :: IsSpecialId(tok, id, str) then var str :| IsSpecialId(tok, id, str); str
    else if exists bs :: IdSpells(tok, id, bs) then var bs :| IdSpells(tok, id, bs); bs
    else []
  }

  ghost function DecodeIds(tok: Tokenizer, ids: seq<int>): seq<Byte> {
    if ids == [] then [] else DecodeId(tok, ids[0]) + DecodeIds(tok, ids[1..])
  }

  lemma {:induction false} DecodeAppend(tok: Tokenizer, a: seq<int>, b: seq<int>)
    ensures DecodeIds(tok, a + b) == DecodeIds(tok, a) + DecodeIds(tok, b)
  {
    if a == [] {
      assert a + b == b;
    } else {
      assert (a + b)[1..] == a[1..] + b;
      DecodeAppend(tok, a[1..], b);
    }
  }

  lemma DecodeOne(tok: Tokenizer, id: int)
    ensures DecodeIds(tok, [id]) == DecodeId(tok, id)
  {
    assert [id][1..] == [];
  }

  /** A special's id decodes to the special. */
  lemma DecodeSpecial(tok: Tokenizer, k: nat)
    requires SpecialIdsOk(tok) && k < |tok.specials|
    ensures DecodeId(tok, tok.specials[k].1) == tok.specials[k].0
  {
    assert IsSpecialId(tok, tok.specials[k].1, tok.specials[k].0);
  }

  /** The id of a piece decodes to the bytes whose symbols it is made of. */
  lemma DecodePiece(tok: Tokenizer, bs: seq<Byte>)
    requires VocabOk(tok) && SpecialIdsOk(tok) && ByteLevel(bs) in tok.vocab
    ensures DecodeId(tok, tok.vocab[ByteLevel(bs)]) == bs
  {
    hide IdSpells;
    var id := tok.vocab[ByteLevel(bs)];
    PieceSpells(tok, bs);
    if exists str :: IsSpecialId(tok, id, str) {
    } else {
      var cs :| IdSpells(tok, id, cs) && DecodeId(tok, id) == cs;
      SpellsUnique(tok, id, bs, cs);
    }
  }

  lemma PieceSpells(tok: Tokenizer, bs: seq<Byte>)
    requires ByteLevel(bs) in tok.vocab
    ensures IdSpells(tok, tok.vocab[ByteLevel(bs)], bs)
  {
  }

  lemma SpellsUnique(tok: Tokenizer, id: int, a: seq<Byte>, b: seq<Byte>)
    requires VocabOk(tok) && IdSpells(tok, id, a) && IdSpells(tok, id, b)
    ensures a == b
  {
    ByteLevelInjective(a, b);
  }

  // ----- one chunk ------------------------------------------------------------------------

  /** A token made of whole symbols. */
  ghost predicate Spelled(tok: Tokenizer, piece: Token) {
    piece in tok.vocab && exists bs :: ByteLevel(bs) == piece
  }

  lemma ByteLevelOne(b: Byte)
    ensures ByteLevel([b]) == Symbol(b)
  {
    hide Symbol;
    assert [b][1..] == [] && ByteLevel([]) == [];
  }

  /** Every merged piece of a chunk is a known token: the fallback never runs. */
  lemma NoFallback(tok: Tokenizer, chunk: seq<Byte>)
    requires VocabOk(tok)
    ensures forall w | w in Merged(tok.merges, Symbols(chunk)) :: Spelled(tok, w)
  {
    forall w | w in Symbols(chunk) ensures Spelled(tok, w) {
      var k :| 0 <= k < |chunk| && w == Symbol(chunk[k]);
      ByteLevelOne(chunk[k]);
    }
    forall a, b | Spelled(tok, a) && Spelled(tok, b) && Key(a, b) in tok.merges ensures Spelled(tok, a + b) {
      var x, y :| ByteLevel(x) == a && ByteLevel(y) == b;
      ByteLevelAppend(x, y);
    }
    MergedKeeps(tok.merges, Symbols(chunk), w => Spelled(tok, w));
  }

  lemma {:induction false} DecodePieces(tok: Tokenizer, pieces: seq<Token>)
    requires VocabOk(tok) && SpecialIdsOk(tok) && forall w | w in pieces :: Spelled(tok, w)
    ensures ByteLevel(DecodeIds(tok, AllPieceIds(tok, pieces))) == Concat(pieces)
  {
    if pieces != [] {
      assert Spelled(tok, pieces[0]);
      var bs :| ByteLevel(bs) == pieces[0];
      var rest := AllPieceIds(tok, pieces[1..]);
      DecodePieces(tok, pieces[1..]);
      DecodeAppend(tok, [tok.vocab[pieces[0]]], rest);
      DecodeOne(tok, tok.vocab[pieces[0]]);
      DecodePiece(tok, bs);
      ByteLevelAppend(bs, DecodeIds(tok, rest));
    }
  }

  lemma {:induction false} SymbolsSpell(chunk: seq<Byte>)
    ensures Concat(Symbols(chunk)) == ByteLevel(chunk)
  {
    hide Symbol;
    if chunk != [] {
      assert Symbols(chunk)[1..] == Symbols(chunk[1..]);
      SymbolsSpell(chunk[1..]);
    }
  }

  lemma ChunkLossless(tok: Tokenizer, chunk: seq<Byte>)
    requires VocabOk(tok) && SpecialIdsOk(tok)
    ensures DecodeIds(tok, ChunkIds(tok, chunk)) == chunk
  {
    NoFallback(tok, chunk);
    var pieces := Merged(tok.merges, Symbols(chunk));
    DecodePieces(tok, pieces);
    MergedKeepsText(tok.merges, Symbols(chunk));
    SymbolsSpell(chunk);
    ByteLevelInjective(DecodeIds(tok, ChunkIds(tok, chunk)), chunk);
  }

  // ----- the whole text -------------------------------------------------------------------

  lemma {:induction false} ChunksLossless(tok: Tokenizer, chunks: seq<seq<Byte>>)
    requires VocabOk(tok) && SpecialIdsOk(tok)
    ensures DecodeIds(tok, AllChunkIds(tok, chunks)) == Concat(chunks)
  {
    if chunks != [] {
      ChunkLossless(tok, chunks[0]);
      ChunksLossless(tok, chunks[1..]);
      DecodeAppend(tok, ChunkIds(tok, chunks[0]), AllChunkIds(tok, chunks[1..]));
    }
  }

  lemma SegmentLossless(tok: Tokenizer, seg: seq<Byte>)
    requires VocabOk(tok) && SpecialIdsOk(tok) && Scannable(seg)
    ensures DecodeIds(tok, SegmentIds(tok, seg)) == seg
  {
    ChunksLossless(tok, Chunks(seg, 0));
    ChunksPartition(seg, 0);
  }

  lemma DecodeNone(tok: Tokenizer)
    ensures DecodeIds(tok, []) == []
  {
  }

  lemma DecodeThree(tok: Tokenizer, a: seq<int>, id: int, b: seq<int>)
    ensures DecodeIds(tok, [] + a + [id] + b) == DecodeIds(tok, a) + DecodeId(tok, id) + DecodeIds(tok, b)
  {
    DecodeOne(tok, id);
    DecodeAppend(tok, a, [id]);
    DecodeAppend(tok, a + [id], b);
    assert [] + a + [id] + b == a + [id] + b;
  }

  lemma OccursText(tok: Tokenizer, text: seq<Byte>, pos: nat, p: nat, k: nat)
    requires LeftmostAt(tok, text, pos, p, k)
    ensures p + |tok.specials[k].0| <= |text| && text[p..p + |tok.specials[k].0|] == tok.specials[k].0
  {
  }

  /** If some special still occurs, one of them is the leftmost. */
  lemma NoneLeft(tok: Tokenizer, text: seq<Byte>, pos: nat)
    requires !exists p: nat, k: nat :: LeftmostAt(tok, text, pos, p, k)
    ensures forall j, q | 0 <= j < |tok.specials| && pos <= q :: !OccursAt(text, tok.specials[j].0, q)
  {
    if j: nat, q: nat :| j < |tok.specials| && pos <= q && OccursAt(text, tok.specials[j].0, q) {
      var p, k := FirstOf(tok, text, pos, |tok.specials|);
      assert LeftmostAt(tok, text, pos, p, k);
    }
  }

  lemma {:induction false} FirstOf(tok: Tokenizer, text: seq<Byte>, pos: nat, n: nat) returns (p: nat, k: nat)
    requires n <= |tok.specials|
    requires exists j: nat, q: nat | j < n && pos <= q :: OccursAt(text, tok.specials[j].0, q)
    ensures pos <= p && k < n && OccursAt(text, tok.specials[k].0, p)
    ensures forall j, q | 0 <= j < n && pos <= q && OccursAt(text, tok.specials[j].0, q) :: p <= q
    ensures forall j | 0 <= j < k :: !OccursAt(text, tok.specials[j].0, p)
    decreases n
  {
    var here := Find(text, tok.specials[n - 1].0, pos);
    if exists j: nat, q: nat | j < n - 1 && pos <= q :: OccursAt(text, tok.specials[j].0, q) {
      p, k := FirstOf(tok, text, pos, n - 1);
      if here.Some? && here.value < p { p, k := here.value, n - 1; }
    } else {
      p, k := here.value, n - 1;
    }
  }

  lemma {:induction false} TextLosslessFrom(tok: Tokenizer, text: seq<Byte>, pos: nat)
    requires VocabOk(tok) && SpecialIdsOk(tok) && SpecialsOk(tok) && Shaped(text) && pos <= |text|
    ensures DecodeIds(tok, TextIds(tok, text, pos)) == text[pos..]
    decreases |text| - pos
  {
    hide VocabOk, SpecialIdsOk, Scannable, Shaped, SegmentIds, OccursAt, DecodeIds;
    if pos == |text| {
      TextIdsEnd(tok, text);
      DecodeNone(tok);
    } else if exists p: nat, k: nat :: LeftmostAt(tok, text, pos, p, k) {
      var p: nat, k: nat :| LeftmostAt(tok, text, pos, p, k);
      TextIdsStep(tok, text, pos, p, k, []);
      var next := p + |tok.specials[k].0|;
      TextLosslessFrom(tok, text, next);
      SegmentLossless(tok, text[pos..p]);
      DecodeSpecial(tok, k);
      DecodeThree(tok, SegmentIds(tok, text[pos..p]), tok.specials[k].1, TextIds(tok, text, next));
      assert [] + TextIds(tok, text, pos) == TextIds(tok, text, pos);
      assert text[pos..] == text[pos..p] + text[p..next] + text[next..];
      assert text[p..next] == tok.specials[k].0 by { OccursText(tok, text, pos, p, k); }
    } else {
      assert forall j, q | 0 <= j < |tok.specials| && pos <= q :: !OccursAt(text, tok.specials[j].0, q) by {
        NoneLeft(tok, text, pos);
      }
      TextIdsLast(tok, text, pos);
      SegmentLossless(tok, text[pos..|text|]);
      assert text[pos..|text|] == text[pos..];
    }
  }

  /** Tokenizing is lossless: for every valid UTF-8 text, reading the ids back gives the text. */
  lemma {:induction false} TextLossless(tok: Tokenizer, text: seq<Byte>)
    requires VocabOk(tok) && SpecialIdsOk(tok) && SpecialsOk(tok) && ValidUtf8(text)
    ensures Shaped(text) && DecodeIds(tok, TextIds(tok, text, 0)) == text
  {
    ValidIsShaped(text);
    TextLosslessFrom(tok, text, 0);
    assert text[0..] == text;
  }

  /** Different texts get different ids. */
  lemma TokenizingIsInjective(tok: Tokenizer, a: seq<Byte>, b: seq<Byte>)
    requires VocabOk(tok) && SpecialIdsOk(tok) && SpecialsOk(tok) && ValidUtf8(a) && ValidUtf8(b)
    requires Shaped(a) && Shaped(b) && TextIds(tok, a, 0) == TextIds(tok, b, 0)
    ensures a == b
  {
    TextLossless(tok, a);
    TextLossless(tok, b);
  }

  /** A special registered from its own vocabulary entry, spelled in printable ASCII, never
      clashes: its symbols are its bytes. */
  lemma PrintableSpecialSpellsItself(tok: Tokenizer, str: Token, bs: seq<Byte>)
    requires VocabOk(tok) && str in tok.vocab && IdSpells(tok, tok.vocab[str], bs)
    requires forall c | c in str :: 0x21 <= c <= 0x7E
    ensures bs == str
  {
    PrintableSymbols(str);
    ByteLevelInjective(bs, str);
  }

  lemma {:induction false} PrintableSymbols(str: Token)
    requires forall c | c in str :: 0x21 <= c <= 0x7E
    ensures ByteLevel(str) == str
  {
    if str != [] {
      assert str[0] in str && Symbol(str[0]) == [str[0]];
      assert forall c | c in str[1..] :: c in str;
      PrintableSymbols(str[1..]);
    }
  }
}
