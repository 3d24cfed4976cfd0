/** The hand-written pre-tokenizer of src/bpe.h: the character classes, the scanner loop, and
    what the chunks it produces are worth. */
module BpePreTokenize {
  import opened Seqs
  import opened BpeBytes

  // ----- character classes ----------------------------------------------------------------

  predicate IsLetter(cp: int) {
    || 0x41 <= cp <= 0x5A || 0x61 <= cp <= 0x7A
    || (cp >= 0x80
        && (|| (0xC0 <= cp <= 0x024F && cp != 0xD7 && cp != 0xF7)
            || 0x0370 <= cp <= 0x1FFF || 0x2C00 <= cp <= 0x2DFF || 0x3040 <= cp <= 0x9FFF
            || 0xAC00 <= cp <= 0xD7AF || 0xF900 <= cp <= 0xFAFF || cp >= 0x10000))
  }

  predicate IsDigit(cp: int) { 0x30 <= cp <= 0x39 }

  predicate IsWhitespace(cp: int) {
    cp == 0x20 || 0x09 <= cp <= 0x0D || cp == 0xA0 || 0x2000 <= cp <= 0x2002 || cp == 0x200B
  }

  predicate IsNewline(cp: int) { cp == 0x0A || cp == 0x0D }

  predicate IsPunct(cp: int) { !IsWhitespace(cp) && !IsLetter(cp) && !IsDigit(cp) && !IsNewline(cp) }

  // ----- runs: where a scan stops ---------------------------------------------------------

  /** First position from i on whose codepoint is outside the class, or the end of the text. */
  function RunEnd(s: seq<Byte>, i: nat, inClass: int -> bool): (e: nat)
    requires Complete(s) && i <= |s|
    ensures i <= e <= |s|
    ensures e < |s| ==> !inClass(Cp(s, e))
    decreases |s| - i
  {
    if i < |s| && inClass(Cp(s, i)) then RunEnd(s, i + Adv(s[i]), inClass) else i
  }

  /** The same for scans that look at single bytes. */
  function ByteRunEnd(s: seq<Byte>, i: nat, inClass: int -> bool): (e: nat)
    requires i <= |s|
    ensures i <= e <= |s|
    ensures forall j | i <= j < e :: inClass(s[j])
    ensures e < |s| ==> !inClass(s[e])
    decreases |s| - i
  {
    if i < |s| && inClass(s[i]) then ByteRunEnd(s, i + 1, inClass) else i
  }

  // ----- contractions ---------------------------------------------------------------------

  const SUFFIXES: seq<seq<Byte>> :=
    [[0x6C, 0x6C], [0x72, 0x65], [0x76, 0x65], [0x73], [0x74], [0x6D], [0x64]]

  function Lower(c: Byte): Byte { if 0x41 <= c <= 0x5A then c + 32 else c }

  /** The suffix stands at byte r, in either case, and no letter follows it. */
  predicate SuffixAt(s: seq<Byte>, r: nat, suffix: seq<Byte>)
    requires Complete(s) && r <= |s|
  {
    && r + |suffix| <= |s|
    && (forall k | 0 <= k < |suffix| :: Lower(s[r + k]) == suffix[k])
    && (r + |suffix| == |s| || !IsLetter(Cp(s, r + |suffix|)))
  }

  method TryMatch(s: seq<Byte>, r: nat, suffix: seq<Byte>) returns (found: bool)
    requires Complete(s) && r <= |s|
    ensures found == SuffixAt(s, r, suffix)
  {
    if |s| - r < |suffix| { return false; }
    for k := 0 to |suffix|
      invariant forall j | 0 <= j < k :: Lower(s[r + j]) == suffix[j]
    {
      if Lower(s[r + k]) != suffix[k] { return false; }
    }
    return r + |suffix| == |s| || !IsLetter(Cp(s, r + |suffix|));
  }

  /** The first suffix of the list, from the n-th on, that stands at r: its length, or 0. */
  function SuffixLen(s: seq<Byte>, r: nat, n: nat): (len: nat)
    requires Complete(s) && r <= |s| && n <= |SUFFIXES|
    ensures r + len <= |s|
    decreases |SUFFIXES| - n
  {
    if n == |SUFFIXES| then 0
    else if SuffixAt(s, r, SUFFIXES[n]) then |SUFFIXES[n]| else SuffixLen(s, r, n + 1)
  }

  // ----- one chunk ------------------------------------------------------------------------

  predicate IsQuote(cp: int) { cp == 0x27 || cp == 0x2019 }

  /** Length of the contraction suffix behind a quote at i, 0 when there is none. */
  function Contraction(s: seq<Byte>, i: nat): (len: nat)
    requires Complete(s) && i < |s|
    ensures i + Adv(s[i]) + len <= |s|
  {
    if IsQuote(Cp(s, i)) && i + Adv(s[i]) < |s| then SuffixLen(s, i + Adv(s[i]), 0) else 0
  }

  predicate InlineSpace(cp: int) { IsWhitespace(cp) && !IsNewline(cp) }

  /** Where the chunk that starts at byte i ends. */
  function ChunkEnd(s: seq<Byte>, i: nat): (e: nat)
    requires Complete(s) && i < |s|
    ensures i <= e <= |s|
  {
    var cp, next := Cp(s, i), i + Adv(s[i]);
    if Contraction(s, i) > 0 then next + Contraction(s, i)
    else if IsLetter(cp) then RunEnd(s, next, IsLetter)
    else if IsPunct(cp) && next < |s| && IsLetter(Cp(s, next)) then RunEnd(s, next, IsLetter)
    else if IsDigit(cp) then (if IsDigit(s[i]) then i + 1 else i)
    else if IsNewline(cp) then ByteRunEnd(s, i, IsNewline)
    else if IsWhitespace(cp) then SpaceEnd(s, i)
    else ByteRunEnd(s, RunEnd(s, next, IsPunct), IsNewline)
  }

  /** The whitespace rule: a run followed by a word gives up its last byte to the word; a single
      space joins the letters or the punctuation behind it; trailing whitespace is one chunk. */
  function SpaceEnd(s: seq<Byte>, i: nat): (e: nat)
    requires Complete(s) && i < |s| && IsWhitespace(Cp(s, i))
    ensures i < e <= |s|
  {
    var next := i + Adv(s[i]);
    var wsEnd := ByteRunEnd(s, next, InlineSpace);
    if wsEnd < |s| && !IsWhitespace(s[wsEnd]) && wsEnd - i > 1 then wsEnd - 1
    else if next < |s| && IsLetter(Cp(s, next)) then RunEnd(s, next, IsLetter)
    else if next < |s| && IsDigit(Cp(s, next)) then next
    else if next < |s| && !IsWhitespace(Cp(s, next)) then ByteRunEnd(s, RunEnd(s, next, IsPunct), IsNewline)
    else RunEnd(s, wsEnd, IsWhitespace)
  }

  /** A digit or newline hidden in a multi-byte sequence: the digit and newline rules see it, but
      their byte scans do not move past it. */
  predicate Stalls(s: seq<Byte>, i: nat)
    requires Complete(s) && i < |s|
  {
    Adv(s[i]) > 1 && (IsDigit(Cp(s, i)) || IsNewline(Cp(s, i)))
  }

  /** The scanner moves on from every byte except such a one. */
  lemma ChunkProgress(s: seq<Byte>, i: nat)
    requires Complete(s) && i < |s|
    ensures ChunkEnd(s, i) == i <==> Stalls(s, i)
  {
  }

  /** The two-byte spelling of a newline: the scanner would repeat an empty chunk for ever. */
  lemma OverlongNewlineStalls()
    ensures Complete([0xC0, 0x8A]) && ChunkEnd([0xC0, 0x8A], 0) == 0
  {
    assert Cp([0xC0, 0x8A], 0) == 0x0A;
  }

  /** The k-th cut: where chunk k - 1 ends. */
  ghost function Cut(s: seq<Byte>, i: nat, k: nat): (e: nat)
    requires Complete(s) && i <= |s|
    ensures i <= e <= |s|
    decreases k
  {
    if k == 0 || i == |s| then i else Cut(s, ChunkEnd(s, i), k - 1)
  }

  lemma {:induction false} CutAfterCut(s: seq<Byte>, i: nat, j: nat, k: nat)
    requires Complete(s) && i <= |s|
    ensures Cut(s, i, j + k) == Cut(s, Cut(s, i, j), k)
    decreases j
  {
    hide Complete, ChunkEnd;
    if j > 0 && i < |s| { CutAfterCut(s, ChunkEnd(s, i), j - 1, k); }
  }

  /** From a stall the scan never gets away. */
  lemma {:induction false} StallStays(s: seq<Byte>, i: nat, k: nat)
    requires Complete(s) && i < |s| && Stalls(s, i)
    ensures Cut(s, i, k) == i
    decreases k
  {
    hide Complete, Stalls, ChunkEnd;
    ChunkProgress(s, i);
    if k > 0 { StallStays(s, i, k - 1); }
  }

  /** Without a stall each of the first k cuts gains a byte, or the end is reached. */
  lemma {:induction false} CutsGain(s: seq<Byte>, i: nat, k: nat)
    requires Complete(s) && i <= |s|
    requires NeverStalls(s, i)
    ensures Cut(s, i, k) >= i + k || Cut(s, i, k) == |s|
    decreases k
  {
    hide Complete, Stalls, ChunkEnd;
    if k > 0 {
      CutsGain(s, i, k - 1);
      var c := Cut(s, i, k - 1);
      CutAfterCut(s, i, k - 1, 1);
      if c < |s| {
        ChunkProgress(s, c);
        assert Cut(s, c, 1) == Cut(s, ChunkEnd(s, c), 0) == ChunkEnd(s, c);
      }
    }
  }

  /** Some cut of the scan from byte i is the end of the text. */
  ghost predicate ScanEnds(s: seq<Byte>, i: nat)
    requires Complete(s) && i <= |s|
  {
    exists k: nat :: Cut(s, i, k) == |s|
  }

  /** No position the cuts reach stalls. */
  ghost predicate NeverStalls(s: seq<Byte>, i: nat)
    requires Complete(s) && i <= |s|
  {
    forall j: nat | Cut(s, i, j) < |s| :: !Stalls(s, Cut(s, i, j))
  }

  /** The scan of a text comes to its end if and only if no position its cuts reach stalls. */
  lemma ScanEndsExactly(s: seq<Byte>, i: nat)
    requires Complete(s) && i <= |s|
    ensures ScanEnds(s, i) <==> NeverStalls(s, i)
  {
    hide Complete, Stalls, ChunkEnd;
    if NeverStalls(s, i) {
      CutsGain(s, i, |s|);
      assert Cut(s, i, |s|) == |s|;
    } else {
      var j: nat :| Cut(s, i, j) < |s| && Stalls(s, Cut(s, i, j));
      forall k: nat ensures Cut(s, i, k) != |s| {
        if Cut(s, i, k) == |s| { ReachedMeansNoStall(s, i, j, k); }
      }
    }
  }

  lemma ReachedMeansNoStall(s: seq<Byte>, i: nat, j: nat, k: nat)
    requires Complete(s) && i <= |s| && Cut(s, i, k) == |s| && Cut(s, i, j) < |s|
    ensures !Stalls(s, Cut(s, i, j))
  {
    hide Complete, Stalls, ChunkEnd;
    if k <= j {
      CutAfterCut(s, i, k, j - k);
    } else if Stalls(s, Cut(s, i, j)) {
      CutAfterCut(s, i, j, k - j);
      StallStays(s, Cut(s, i, j), k - j);
    }
  }

  /** Texts the scanner gets through: no truncated sequence and no disguised ASCII. */
  predicate Scannable(s: seq<Byte>) { Complete(s) && NoOverlongAscii(s) }

  lemma Advances(s: seq<Byte>, i: nat)
    requires Scannable(s) && i < |s|
    ensures i < ChunkEnd(s, i)
  {
    ChunkProgress(s, i);
  }

  /** The chunks of the text from byte i on. */
  function Chunks(s: seq<Byte>, i: nat): seq<seq<Byte>>
    requires Scannable(s) && i <= |s|
    decreases |s| - i
  {
    if i == |s| then []
    else Advances(s, i); [s[i..ChunkEnd(s, i)]] + Chunks(s, ChunkEnd(s, i))
  }

  /** The chunks cut the text into non-empty pieces and lose nothing. */
  lemma {:induction false} ChunksPartition(s: seq<Byte>, i: nat)
    requires Scannable(s) && i <= |s|
    ensures Concat(Chunks(s, i)) == s[i..]
    ensures forall c | c in Chunks(s, i) :: c != []
    decreases |s| - i
  {
    hide Concat, Chunks, ChunkEnd, Complete, NoOverlongAscii;
    ChunksStep(s, i);
    if i < |s| {
      var e := ChunkEnd(s, i);
      ChunksPartition(s, e);
      ConcatCons(s[i..e], Chunks(s, e));
      assert s[i..e] + s[e..] == s[i..];
    } else {
      ConcatNone();
    }
  }

  lemma ChunksStep(s: seq<Byte>, i: nat)
    requires Scannable(s) && i <= |s|
    ensures i < |s| ==> i < ChunkEnd(s, i) && Chunks(s, i) == [s[i..ChunkEnd(s, i)]] + Chunks(s, ChunkEnd(s, i))
    ensures i == |s| ==> Chunks(s, i) == []
  {
    hide ChunkEnd;
    if i < |s| { Advances(s, i); }
  }

  lemma ConcatCons(c: seq<Byte>, rest: seq<seq<Byte>>)
    ensures Concat([c] + rest) == c + Concat(rest)
  {
    assert ([c] + rest)[1..] == rest;
  }

  lemma ConcatNone()
    ensures Concat<Byte>([]) == []
  {
  }

  // ----- the scanner ----------------------------------------------------------------------

  method ScanRun(s: seq<Byte>, from: nat, inClass: int -> bool) returns (i: nat)
    requires Complete(s) && from <= |s|
    ensures i == RunEnd(s, from, inClass)
  {
    i := from;
    while i < |s|
      invariant from <= i <= |s| && RunEnd(s, i, inClass) == RunEnd(s, from, inClass)
    {
      if !inClass(Cp(s, i)) { break; }
      i := i + Adv(s[i]);
    }
  }

  method ScanBytes(s: seq<Byte>, from: nat, inClass: int -> bool) returns (i: nat)
    requires from <= |s|
    ensures i == ByteRunEnd(s, from, inClass)
  {
    i := from;
    while i < |s| && inClass(s[i])
      invariant from <= i <= |s| && ByteRunEnd(s, i, inClass) == ByteRunEnd(s, from, inClass)
    {
      i := i + 1;
    }
  }

  /** Rule 1. Zero when no contraction stands at i. */
  method ScanContraction(s: seq<Byte>, i: nat) returns (len: nat)
    requires Complete(s) && i < |s|
    ensures len == Contraction(s, i)
  {
    hide Cp, SuffixAt, IsLetter;
    var adv := Adv(s[i]);
    if IsQuote(Cp(s, i)) && i + adv < |s| {
      var n := 0;
      while n < |SUFFIXES|
        invariant n <= |SUFFIXES| && SuffixLen(s, i + adv, n) == SuffixLen(s, i + adv, 0)
      {
        var found := TryMatch(s, i + adv, SUFFIXES[n]);
        if found { return |SUFFIXES[n]|; }
        n := n + 1;
      }
    }
    return 0;
  }

  lemma RunGoesOn(s: seq<Byte>, i: nat, inClass: int -> bool)
    requires Complete(s) && i < |s| && inClass(Cp(s, i))
    ensures RunEnd(s, i, inClass) == RunEnd(s, i + Adv(s[i]), inClass)
  {
  }

  /** Rules 1, 2, 5, 6 and 4, for a codepoint that is not a digit. */
  method ScanChunk(s: seq<Byte>, i: nat) returns (end: nat)
    requires Complete(s) && i < |s| && !IsDigit(Cp(s, i))
    ensures end == ChunkEnd(s, i)
  {
    hide Cp, Contraction, SpaceEnd, ByteRunEnd, Adv;
    var cp, after := Cp(s, i), i + Adv(s[i]);
    var len := ScanContraction(s, i);
    if len > 0 { return after + len; }
    if IsLetter(cp) {
      end := ScanRun(s, after, IsLetter);
      return;
    }
    if !IsNewline(cp) && !IsLetter(cp) && !IsDigit(cp) && !IsWhitespace(cp) {
      if after < |s| && IsLetter(Cp(s, after)) {
        end := ScanRun(s, after + Adv(s[after]), IsLetter);
        return;
      }
    }
    if IsNewline(cp) {
      end := ScanBytes(s, i, IsNewline);
      return;
    }
    if IsWhitespace(cp) {
      end := ScanSpace(s, i);
      return;
    }
    end := ScanRun(s, after, IsPunct);
    end := ScanBytes(s, end, IsNewline);
  }

  /** The symbols behind a single space. The newline test is not written out: a newline is
      whitespace. */
  method ScanSymbols(s: seq<Byte>, from: nat) returns (i: nat)
    requires Complete(s) && from <= |s|
    ensures i == RunEnd(s, from, IsPunct)
  {
    i := from;
    while i < |s|
      invariant from <= i <= |s| && RunEnd(s, i, IsPunct) == RunEnd(s, from, IsPunct)
    {
      var cp := Cp(s, i);
      if IsWhitespace(cp) || IsLetter(cp) || IsDigit(cp) { break; }
      assert IsPunct(cp);
      i := i + Adv(s[i]);
    }
  }

  method ScanSpace(s: seq<Byte>, start: nat) returns (i: nat)
    requires Complete(s) && start < |s| && IsWhitespace(Cp(s, start))
    ensures i == SpaceEnd(s, start)
  {
    hide Cp, IsLetter, IsDigit, RunEnd, ByteRunEnd, Adv;
    var adv := Adv(s[start]);
    var wsEnd := ScanBytes(s, start + adv, InlineSpace);
    var followed := wsEnd < |s| && !IsWhitespace(s[wsEnd]) && !IsNewline(s[wsEnd]);
    if followed && wsEnd - start > 1 { return wsEnd - 1; }
    i := start + adv;
    if i < |s| {
      var cp2 := Cp(s, i);
      if IsLetter(cp2) {
        RunGoesOn(s, i, IsLetter);
        i := ScanRun(s, i + Adv(s[i]), IsLetter);
        return;
      }
      if IsDigit(cp2) { return; }
      if !IsWhitespace(cp2) && !IsNewline(cp2) {
        i := ScanSymbols(s, i);
        i := ScanBytes(s, i, IsNewline);
        return;
      }
    }
    i := ScanRun(s, wsEnd, IsWhitespace);
  }

  /** Rule 3: a run of digits is one chunk per digit, as cutting chunk after chunk would do. */
  method EmitDigits(s: seq<Byte>, start: nat, end: nat, before: seq<seq<Byte>>) returns (chunks: seq<seq<Byte>>)
    requires Scannable(s) && start <= end <= |s| && forall j | start <= j < end :: IsDigit(s[j])
    ensures chunks + Chunks(s, end) == before + Chunks(s, start)
  {
    hide Cp, ChunkEnd, Chunks;
    chunks := before;
    for j := start to end
      invariant chunks + Chunks(s, j) == before + Chunks(s, start)
    {
      DigitChunk(s, j);
      chunks := chunks + [[s[j]]];
    }
  }

  lemma DigitByte(s: seq<Byte>, i: nat)
    requires Scannable(s) && i < |s| && IsDigit(Cp(s, i))
    ensures IsDigit(s[i]) && i < ByteRunEnd(s, i, IsDigit)
  {
  }

  lemma DigitChunk(s: seq<Byte>, j: nat)
    requires Scannable(s) && j < |s| && IsDigit(s[j])
    ensures Chunks(s, j) == [[s[j]]] + Chunks(s, j + 1)
  {
    assert Cp(s, j) == s[j] && ChunkEnd(s, j) == j + 1;
    assert s[j..j + 1] == [s[j]];
  }

  /** The scanner loop: contractions, single digits, and one chunk per turn otherwise. */
  method Gpt2PreTokenize(s: seq<Byte>) returns (chunks: seq<seq<Byte>>)
    requires Scannable(s)
    ensures chunks == Chunks(s, 0)
    ensures Concat(chunks) == s && forall c | c in chunks :: c != []
  {
    hide Cp, ChunkEnd, Chunks, Concat, Complete, NoOverlongAscii, Stalls;
    ChunksPartition(s, 0);
    chunks := [];
    var i := 0;
    ChunksStep(s, |s|);
    while i < |s|
      invariant i <= |s| && chunks + Chunks(s, i) == Chunks(s, 0)
      decreases |s| - i
    {
      ChunksStep(s, i);
      Inside(s, i);
      if IsDigit(Cp(s, i)) {
        var end := ScanBytes(s, i, IsDigit);
        DigitByte(s, i);
        chunks := EmitDigits(s, i, end, chunks);
        i := end;
        continue;
      }
      var end := ScanChunk(s, i);
      chunks, i := chunks + [s[i..end]], end;
    }
  }

  // ----- what the chunks mean -------------------------------------------------------------

  /** A letter ends in front of byte e. */
  ghost predicate LetterEndsAt(s: seq<Byte>, e: nat)
    requires Complete(s) && e <= |s|
  {
    exists p: nat | p < e :: !IsCont(s[p]) && p + Adv(s[p]) == e && IsLetter(Cp(s, p))
  }

  /** A letter starts at byte e. */
  predicate LetterAt(s: seq<Byte>, e: nat)
    requires Complete(s) && e <= |s|
  {
    e < |s| && IsLetter(Cp(s, e))
  }

  /** The positions the scan can reach: character boundaries, and the last byte of a multi-byte
      whitespace, which the whitespace rule may split off. */
  ghost predicate Start(s: seq<Byte>, i: nat)
    requires Complete(s) && i <= |s|
  {
    forall p: nat | p < i && !IsCont(s[p]) && i < p + Adv(s[p]) ::
      IsWhitespace(Cp(s, p)) && p + Adv(s[p]) == i + 1
  }

  lemma SingleByte(s: seq<Byte>, i: nat)
    requires Complete(s) && i < |s| && Adv(s[i]) == 1
    ensures Cp(s, i) == s[i]
    ensures IsWhitespace(s[i]) || IsCont(s[i]) ==> !LetterAt(s, i)
  {
  }

  lemma StepStart(s: seq<Byte>, i: nat)
    requires Shaped(s) && Complete(s) && i < |s| && Start(s, i)
    ensures Start(s, i + Adv(s[i]))
    ensures !IsLetter(Cp(s, i)) ==> !LetterEndsAt(s, i + Adv(s[i]))
  {
    assert LeadFits(s, i);
  }

  lemma {:induction false} RunStart(s: seq<Byte>, i: nat, inClass: int -> bool)
    requires Shaped(s) && Complete(s) && i <= |s| && Start(s, i)
    ensures Start(s, RunEnd(s, i, inClass))
    ensures (forall c | IsLetter(c) :: !inClass(c)) && i < RunEnd(s, i, inClass) ==>
              !LetterEndsAt(s, RunEnd(s, i, inClass))
    decreases |s| - i
  {
    hide Cp, Start, Shaped, LetterEndsAt, IsLetter, Adv;
    if i < |s| && inClass(Cp(s, i)) {
      StepStart(s, i);
      RunStart(s, i + Adv(s[i]), inClass);
    }
  }

  lemma {:induction false} ByteRunStart(s: seq<Byte>, i: nat, e: nat)
    requires Shaped(s) && Complete(s) && i <= e <= |s| && Start(s, i)
    requires forall j | i <= j < e :: Adv(s[j]) == 1 && !IsLetter(s[j])
    ensures Start(s, e)
    ensures i < e ==> !LetterEndsAt(s, e)
    decreases e - i
  {
    if i < e {
      StepStart(s, i);
      ByteRunStart(s, i + 1, e);
    }
  }

  /** The bytes of a whitespace run, and those of a newline run, stand alone and are no letters. */
  lemma PlainRuns(s: seq<Byte>, i: nat)
    requires i <= |s|
    ensures forall j | i <= j < ByteRunEnd(s, i, InlineSpace) :: Adv(s[j]) == 1 && !IsLetter(s[j])
    ensures forall j | i <= j < ByteRunEnd(s, i, IsNewline) :: Adv(s[j]) == 1 && !IsLetter(s[j])
  {
    forall j | i <= j < ByteRunEnd(s, i, InlineSpace) ensures Adv(s[j]) == 1 && !IsLetter(s[j]) {
      SpaceByte(s[j]);
    }
    forall j | i <= j < ByteRunEnd(s, i, IsNewline) ensures Adv(s[j]) == 1 && !IsLetter(s[j]) {
      SpaceByte(s[j]);
    }
  }

  lemma SpaceByte(b: Byte)
    requires IsWhitespace(b)
    ensures Adv(b) == 1 && !IsLetter(b)
  {
  }

  /** Letters are neither whitespace nor symbols. */
  lemma LettersApart()
    ensures forall c | IsLetter(c) :: !IsWhitespace(c)
    ensures forall c | IsLetter(c) :: !IsPunct(c)
  {
  }

  /** The whitespace rule may start a chunk at the last byte of a multi-byte whitespace. */
  lemma LastByteStarts(s: seq<Byte>, i: nat)
    requires Shaped(s) && Complete(s) && i < |s| && Start(s, i) && IsWhitespace(Cp(s, i)) && Adv(s[i]) > 1
    ensures Start(s, i + Adv(s[i]) - 1) && IsCont(s[i + Adv(s[i]) - 1])
  {
    hide Cp, IsWhitespace;
    assert LeadFits(s, i);
  }

  lemma ContByte(b: Byte)
    requires IsCont(b)
    ensures Adv(b) == 1
  {
  }

  lemma SpaceGivesUpByte(s: seq<Byte>, i: nat, wsEnd: nat)
    requires Shaped(s) && Complete(s) && i < |s| && Start(s, i) && IsWhitespace(Cp(s, i))
    requires wsEnd == ByteRunEnd(s, i + Adv(s[i]), InlineSpace) && wsEnd - i > 1
    ensures Start(s, wsEnd - 1) && !LetterAt(s, wsEnd - 1)
  {
    hide *;
    var next := i + Adv(s[i]);
    Inside(s, i);
    if wsEnd > next {
      RunGivesUpByte(s, i, next, wsEnd);
    } else {
      LastByteStarts(s, i);
      ContByte(s[wsEnd - 1]);
      SingleByte(s, wsEnd - 1);
    }
  }

  lemma Inside(s: seq<Byte>, i: nat)
    requires Complete(s) && i < |s|
    ensures i < i + Adv(s[i]) <= |s|
  {
  }

  lemma RunGivesUpByte(s: seq<Byte>, i: nat, next: nat, wsEnd: nat)
    requires Shaped(s) && Complete(s) && i < |s| && Start(s, i) && next == i + Adv(s[i]) <= |s|
    requires next < wsEnd == ByteRunEnd(s, next, InlineSpace)
    ensures Start(s, wsEnd - 1) && !LetterAt(s, wsEnd - 1)
  {
    LastIsSpace(s, next);
    SpaceByte(s[wsEnd - 1]);
    hide *;
    StepStart(s, i);
    PlainRuns(s, next);
    ByteRunStart(s, next, wsEnd - 1);
    SingleByte(s, wsEnd - 1);
  }

  lemma LastIsSpace(s: seq<Byte>, i: nat)
    requires i <= |s| && i < ByteRunEnd(s, i, InlineSpace)
    ensures IsWhitespace(s[ByteRunEnd(s, i, InlineSpace) - 1])
  {
    hide ByteRunEnd, IsWhitespace;
    assert InlineSpace(s[ByteRunEnd(s, i, InlineSpace) - 1]);
  }

  lemma SpaceKeepsWords(s: seq<Byte>, i: nat)
    requires Shaped(s) && Complete(s) && i < |s| && Start(s, i) && IsWhitespace(Cp(s, i))
    ensures Start(s, SpaceEnd(s, i))
    ensures !(LetterEndsAt(s, SpaceEnd(s, i)) && LetterAt(s, SpaceEnd(s, i)))
  {
    LettersApart();
    hide Cp, Start, Shaped, LetterEndsAt, IsLetter, IsWhitespace, IsDigit, RunEnd, ByteRunEnd, Adv;
    var next := i + Adv(s[i]);
    var wsEnd := ByteRunEnd(s, next, InlineSpace);
    StepStart(s, i);
    if wsEnd < |s| && !IsWhitespace(s[wsEnd]) && wsEnd - i > 1 {
      SpaceGivesUpByte(s, i, wsEnd);
    } else if next < |s| && IsLetter(Cp(s, next)) {
      RunStart(s, next, IsLetter);
    } else if next < |s| && IsDigit(Cp(s, next)) {
    } else if next < |s| && !IsWhitespace(Cp(s, next)) {
      SymbolsKeepWords(s, next);
    } else {
      TrailingSpaceEnds(s, i);
    }
  }

  lemma TrailingSpaceEnds(s: seq<Byte>, i: nat)
    requires Shaped(s) && Complete(s) && i < |s| && Start(s, i) && IsWhitespace(Cp(s, i))
    ensures var e := RunEnd(s, ByteRunEnd(s, i + Adv(s[i]), InlineSpace), IsWhitespace);
            Start(s, e) && !LetterEndsAt(s, e)
  {
    LettersApart();
    hide Cp, Start, Shaped, LetterEndsAt, IsLetter, IsWhitespace, InlineSpace, RunEnd, ByteRunEnd, Adv;
    var next := i + Adv(s[i]);
    var wsEnd := ByteRunEnd(s, next, InlineSpace);
    StepStart(s, i);
    PlainRuns(s, next);
    ByteRunStart(s, next, wsEnd);
    RunStart(s, wsEnd, IsWhitespace);
  }

  lemma SymbolsKeepWords(s: seq<Byte>, next: nat)
    requires Shaped(s) && Complete(s) && next <= |s| && Start(s, next) && !LetterEndsAt(s, next)
    ensures var e := ByteRunEnd(s, RunEnd(s, next, IsPunct), IsNewline);
            Start(s, e) && !LetterEndsAt(s, e)
  {
    LettersApart();
    hide Cp, Start, Shaped, LetterEndsAt, IsLetter, IsWhitespace, IsNewline, IsPunct, RunEnd, ByteRunEnd, Adv;
    var e := RunEnd(s, next, IsPunct);
    RunStart(s, next, IsPunct);
    PlainRuns(s, e);
    ByteRunStart(s, e, ByteRunEnd(s, e, IsNewline));
  }

  lemma ContractionStart(s: seq<Byte>, i: nat)
    requires Shaped(s) && Complete(s) && i < |s| && Start(s, i) && Contraction(s, i) > 0
    ensures Start(s, ChunkEnd(s, i)) && !LetterAt(s, ChunkEnd(s, i))
  {
    hide Cp, Start, Shaped, LetterEndsAt, LetterAt, IsLetter, ChunkEnd, SuffixAt, SuffixLen, IsQuote;
    StepStart(s, i);
    var r := i + Adv(s[i]);
    var n := FirstSuffix(s, r, 0);
    SuffixIsLetters(s, r, n);
    AfterSuffix(s, r, n);
    StepStart(s, r);
    if |SUFFIXES[n]| == 2 { StepStart(s, r + 1); }
    ContractionEnd(s, i);
  }

  lemma AfterSuffix(s: seq<Byte>, r: nat, n: nat)
    requires Complete(s) && r <= |s| && n < |SUFFIXES| && SuffixAt(s, r, SUFFIXES[n])
    ensures r + |SUFFIXES[n]| <= |s| && !LetterAt(s, r + |SUFFIXES[n]|)
  {
    hide Cp, IsLetter;
  }

  lemma ContractionEnd(s: seq<Byte>, i: nat)
    requires Complete(s) && i < |s| && Contraction(s, i) > 0
    ensures ChunkEnd(s, i) == i + Adv(s[i]) + Contraction(s, i)
  {
    hide Cp, Contraction, SpaceEnd, RunEnd, ByteRunEnd, Adv;
  }

  lemma SuffixIsLetters(s: seq<Byte>, r: nat, n: nat)
    requires Complete(s) && r <= |s| && n < |SUFFIXES| && SuffixAt(s, r, SUFFIXES[n])
    ensures |SUFFIXES[n]| in {1, 2}
    ensures forall j | r <= j < r + |SUFFIXES[n]| :: s[j] < 0x80 && !IsDigit(s[j])
  {
    forall j | r <= j < r + |SUFFIXES[n]| ensures s[j] < 0x80 && !IsDigit(s[j]) {
      assert Lower(s[r + (j - r)]) == SUFFIXES[n][j - r];
    }
  }

  lemma {:induction false} FirstSuffix(s: seq<Byte>, r: nat, n: nat) returns (m: nat)
    requires Complete(s) && r <= |s| && n <= |SUFFIXES| && SuffixLen(s, r, n) > 0
    ensures m < |SUFFIXES| && SuffixAt(s, r, SUFFIXES[m]) && SuffixLen(s, r, n) == |SUFFIXES[m]|
    decreases |SUFFIXES| - n
  {
    if SuffixAt(s, r, SUFFIXES[n]) { m := n; } else { m := FirstSuffix(s, r, n + 1); }
  }

  /** No chunk ends between two letters. */
  lemma ChunkKeepsWords(s: seq<Byte>, i: nat)
    requires Shaped(s) && Complete(s) && i < |s| && Start(s, i)
    ensures var e := ChunkEnd(s, i); Start(s, e) && !(LetterEndsAt(s, e) && LetterAt(s, e))
  {
    LettersApart();
    hide Cp, Start, Shaped, LetterEndsAt, IsLetter, IsWhitespace, IsNewline, SpaceEnd, Contraction, RunEnd, ByteRunEnd;
    var cp, next := Cp(s, i), i + Adv(s[i]);
    StepStart(s, i);
    if Contraction(s, i) > 0 {
      ContractionStart(s, i);
    } else if IsLetter(cp) || (IsPunct(cp) && next < |s| && IsLetter(Cp(s, next))) {
      RunStart(s, next, IsLetter);
    } else if IsDigit(cp) {
    } else if IsNewline(cp) {
      PlainRuns(s, i);
      NoMove(s, i);
      ByteRunStart(s, i, ByteRunEnd(s, i, IsNewline));
    } else if IsWhitespace(cp) {
      SpaceKeepsWords(s, i);
    } else {
      SymbolsKeepWords(s, next);
    }
  }

  lemma NoMove(s: seq<Byte>, i: nat)
    requires Complete(s) && i < |s| && IsNewline(Cp(s, i))
    ensures !LetterAt(s, i)
  {
    hide Cp;
  }

  lemma {:induction false} CutKeepsWords(s: seq<Byte>, i: nat, k: nat)
    requires Shaped(s) && Scannable(s) && i < |s| && Start(s, i) && k > 0
    ensures var e := Cut(s, i, k); !(LetterEndsAt(s, e) && LetterAt(s, e))
    decreases k
  {
    var e := ChunkEnd(s, i);
    ChunkKeepsWords(s, i);
    if k > 1 && e < |s| { CutKeepsWords(s, e, k - 1); } else { assert Cut(s, i, k) == e; }
  }

  lemma {:induction false} CutOffset(s: seq<Byte>, i: nat, k: nat)
    requires Scannable(s) && i <= |s| && k <= |Chunks(s, i)|
    ensures Cut(s, i, k) == i + |Concat(Chunks(s, i)[..k])|
    decreases k
  {
    hide Concat, Chunks, ChunkEnd, Cut, Complete, NoOverlongAscii;
    ChunksStep(s, i);
    if k > 0 {
      var c, rest := s[i..ChunkEnd(s, i)], Chunks(s, ChunkEnd(s, i));
      assert Chunks(s, i)[..k] == [c] + rest[..k - 1];
      ConcatCons(c, rest[..k - 1]);
      CutOffset(s, ChunkEnd(s, i), k - 1);
      CutStep(s, i, k);
    } else {
      CutNone(s, i);
      ConcatNone();
      assert Chunks(s, i)[..0] == [];
    }
  }

  lemma CutStep(s: seq<Byte>, i: nat, k: nat)
    requires Scannable(s) && i < |s| && k > 0
    ensures Cut(s, i, k) == Cut(s, ChunkEnd(s, i), k - 1)
  {
  }

  lemma CutNone(s: seq<Byte>, i: nat)
    requires Scannable(s) && i <= |s|
    ensures Cut(s, i, 0) == i
  {
  }

  /** Over the whole text: a word is never cut. Every cut between two chunks has, on one side or
      the other, something that is not a letter. */
  lemma WordsStayWhole(s: seq<Byte>, k: nat)
    requires Shaped(s) && Scannable(s) && 0 < k < |Chunks(s, 0)|
    ensures var e := |Concat(Chunks(s, 0)[..k])|;
            e <= |s| && !(LetterEndsAt(s, e) && LetterAt(s, e))
  {
    hide Chunks, Concat, ChunkEnd, Cut, LetterEndsAt, LetterAt, Complete, NoOverlongAscii, Shaped;
    ChunksStep(s, 0);
    CutOffset(s, 0, k);
    CutKeepsWords(s, 0, k);
  }

  // Digits

  lemma {:induction false} RunHasNoDigit(s: seq<Byte>, i: nat, inClass: int -> bool, j: nat)
    requires Shaped(s) && Complete(s) && i <= |s| && i <= j < RunEnd(s, i, inClass)
    requires forall c | IsDigit(c) :: !inClass(c)
    ensures !IsDigit(s[j])
    decreases |s| - i
  {
    assert LeadFits(s, i);
    if j >= i + Adv(s[i]) { RunHasNoDigit(s, i + Adv(s[i]), inClass, j); }
  }

  lemma SymbolsHaveNoDigit(s: seq<Byte>, next: nat, j: nat)
    requires Shaped(s) && Complete(s) && next <= |s|
    requires next <= j < ByteRunEnd(s, RunEnd(s, next, IsPunct), IsNewline)
    ensures !IsDigit(s[j])
  {
    if j < RunEnd(s, next, IsPunct) { RunHasNoDigit(s, next, IsPunct, j); }
  }

  lemma SpaceHasNoDigit(s: seq<Byte>, i: nat, j: nat)
    requires Shaped(s) && Complete(s) && i < |s| && IsWhitespace(Cp(s, i))
    requires i + Adv(s[i]) <= j < SpaceEnd(s, i)
    ensures !IsDigit(s[j])
  {
    hide Cp, Shaped, RunEnd, ByteRunEnd, Adv;
    var next := i + Adv(s[i]);
    var wsEnd := ByteRunEnd(s, next, InlineSpace);
    if j < wsEnd {
      assert InlineSpace(s[j]);
    } else if next < |s| && IsLetter(Cp(s, next)) {
      RunHasNoDigit(s, next, IsLetter, j);
    } else if next < |s| && !IsDigit(Cp(s, next)) && !IsWhitespace(Cp(s, next)) {
      SymbolsHaveNoDigit(s, next, j);
    } else {
      RunHasNoDigit(s, wsEnd, IsWhitespace, j);
    }
  }

  /** A digit is always a chunk of its own. */
  lemma DigitsStandAlone(s: seq<Byte>, i: nat, j: nat)
    requires Shaped(s) && Scannable(s) && i < |s| && i <= j < ChunkEnd(s, i) && IsDigit(s[j])
    ensures i == j && ChunkEnd(s, i) == j + 1
  {
    var cp, next := Cp(s, i), i + Adv(s[i]);
    assert LeadFits(s, i);
    if j < next {
      assert j == i && cp == s[j];
    } else if Contraction(s, i) > 0 {
      var n := FirstSuffix(s, next, 0);
      SuffixIsLetters(s, next, n);
    } else if IsLetter(cp) || (IsPunct(cp) && next < |s| && IsLetter(Cp(s, next))) {
      RunHasNoDigit(s, next, IsLetter, j);
    } else if IsDigit(cp) || IsNewline(cp) {
    } else if IsWhitespace(cp) {
      SpaceHasNoDigit(s, i, j);
    } else {
      SymbolsHaveNoDigit(s, next, j);
    }
  }
}
