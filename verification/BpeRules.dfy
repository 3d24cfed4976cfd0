/** What the pre-tokenizer's rules mean for a text: each rule through the characters it takes and the
    character it stops at, and, over whole texts, what is never cut apart (src/bpe.h). */
module BpeRules {
  import opened Seqs
  import opened BpeBytes
  import opened BpePreTokenize

  // ----- runs without the scan ------------------------------------------------------------

  /** Every character that starts in [i, e) is of the class and ends by e. */
  ghost predicate AllOf(s: seq<Byte>, i: nat, e: nat, inClass: int -> bool)
    requires Complete(s) && e <= |s|
  {
    forall p | i <= p < e && !IsCont(s[p]) :: inClass(Cp(s, p)) && p + Adv(s[p]) <= e
  }

  predicate StopsAt(s: seq<Byte>, e: nat, inClass: int -> bool)
    requires Complete(s) && e <= |s|
  {
    e < |s| ==> !inClass(Cp(s, e))
  }

  /** The bytes [i, e) are newlines and no newline follows. */
  predicate Newlines(s: seq<Byte>, i: nat, e: nat)
    requires e <= |s|
  {
    (forall j | i <= j < e :: s[j] == 0x0A || s[j] == 0x0D) && (e < |s| ==> s[e] != 0x0A && s[e] != 0x0D)
  }

  lemma {:induction false} RunIsMaximal(s: seq<Byte>, i: nat, inClass: int -> bool)
    requires Shaped(s) && Complete(s) && i <= |s|
    ensures var e := RunEnd(s, i, inClass); AllOf(s, i, e, inClass) && StopsAt(s, e, inClass)
    decreases |s| - i
  {
    hide Cp, Shaped, Adv;
    if i < |s| && inClass(Cp(s, i)) {
      RunIsMaximal(s, i + Adv(s[i]), inClass);
      Continuation(s, i);
    }
  }

  lemma Continuation(s: seq<Byte>, i: nat)
    requires Shaped(s) && Complete(s) && i < |s|
    ensures forall j | i < j < i + Adv(s[i]) :: IsCont(s[j])
  {
    assert LeadFits(s, i);
  }

  lemma NewlineRun(s: seq<Byte>, i: nat)
    requires i <= |s|
    ensures Newlines(s, i, ByteRunEnd(s, i, IsNewline))
  {
  }

  /** A run behind a character of the same class makes one run with it. */
  lemma RunWithFirst(s: seq<Byte>, i: nat, inClass: int -> bool)
    requires Shaped(s) && Complete(s) && i < |s| && inClass(Cp(s, i))
    ensures var e := RunEnd(s, i + Adv(s[i]), inClass); i < e && AllOf(s, i, e, inClass) && StopsAt(s, e, inClass)
  {
    hide Cp, Shaped, Adv;
    RunIsMaximal(s, i, inClass);
  }

  // ----- the rules ------------------------------------------------------------------------

  /** A letter starts a chunk that is all letters and ends where the letters end. */
  lemma WordRule(s: seq<Byte>, i: nat)
    requires Shaped(s) && Complete(s) && i < |s| && IsLetter(Cp(s, i))
    ensures var e := ChunkEnd(s, i); i < e && AllOf(s, i, e, IsLetter) && StopsAt(s, e, IsLetter)
  {
    RunWithFirst(s, i, IsLetter);
    NoQuote(Cp(s, i));
    hide Cp, RunEnd, SpaceEnd, SuffixLen, IsLetter, IsQuote, Adv, Shaped;
  }

  lemma NoQuote(cp: int)
    ensures IsLetter(cp) || IsWhitespace(cp) || IsDigit(cp) || IsNewline(cp) ==> !IsQuote(cp)
    ensures IsNewline(cp) ==> IsWhitespace(cp)
    ensures IsWhitespace(cp) || IsDigit(cp) ==> !IsLetter(cp) && !IsPunct(cp)
    ensures IsWhitespace(cp) ==> !IsDigit(cp)
  {
  }

  /** Whatever is neither letter, digit nor whitespace joins the letters behind it, all of them. */
  lemma SymbolWordRule(s: seq<Byte>, i: nat)
    requires Shaped(s) && Complete(s) && i < |s| && IsPunct(Cp(s, i)) && Contraction(s, i) == 0
    requires i + Adv(s[i]) < |s| && IsLetter(Cp(s, i + Adv(s[i])))
    ensures var e, next := ChunkEnd(s, i), i + Adv(s[i]);
            next < e && AllOf(s, next, e, IsLetter) && StopsAt(s, e, IsLetter)
  {
    hide Cp, RunEnd, SpaceEnd, Contraction, IsLetter, Adv, Shaped;
    var next := i + Adv(s[i]);
    RunIsMaximal(s, next, IsLetter);
    RunWithFirst(s, next, IsLetter);
    RunGoesOn(s, next, IsLetter);
  }

  /** Other symbols take all symbols behind them, and then all newlines. */
  lemma SymbolRule(s: seq<Byte>, i: nat) returns (m: nat)
    requires Shaped(s) && Complete(s) && i < |s| && IsPunct(Cp(s, i)) && Contraction(s, i) == 0
    requires i + Adv(s[i]) == |s| || !IsLetter(Cp(s, i + Adv(s[i])))
    ensures var e := ChunkEnd(s, i);
            i < m <= e && AllOf(s, i, m, IsPunct) && StopsAt(s, m, IsPunct) && Newlines(s, m, e)
  {
    m := RunEnd(s, i + Adv(s[i]), IsPunct);
    RunWithFirst(s, i, IsPunct);
    NewlineRun(s, m);
    PunctApart(Cp(s, i));
    hide Cp, RunEnd, ByteRunEnd, SpaceEnd, Contraction, IsLetter, IsDigit, IsNewline, IsWhitespace, IsPunct, Adv, Shaped;
  }

  lemma PunctApart(cp: int)
    requires IsPunct(cp)
    ensures !IsLetter(cp) && !IsDigit(cp) && !IsNewline(cp) && !IsWhitespace(cp)
  {
  }

  /** A newline starts a chunk of all the newlines there are. */
  lemma NewlineRule(s: seq<Byte>, i: nat)
    requires Scannable(s) && i < |s| && IsNewline(Cp(s, i))
    ensures i < ChunkEnd(s, i) && Newlines(s, i, ChunkEnd(s, i))
  {
    NewlineRun(s, i);
    NoQuote(Cp(s, i));
    Advances(s, i);
    hide Cp, RunEnd, ByteRunEnd, SpaceEnd, SuffixLen, IsLetter, IsQuote, IsPunct, IsDigit, IsWhitespace;
  }

  lemma DigitRule(s: seq<Byte>, i: nat)
    requires Scannable(s) && i < |s| && IsDigit(Cp(s, i))
    ensures ChunkEnd(s, i) == i + 1
  {
    DigitByte(s, i);
    NoQuote(Cp(s, i));
    hide Cp, RunEnd, ByteRunEnd, SpaceEnd, SuffixLen, IsLetter, IsQuote, IsPunct, IsWhitespace;
  }

  /** The whitespace rule. Bytes [next, m) are what is left of the whitespace in front of the next
      newline or non-space. A run before something else gives up its last byte; a single space joins
      the letters behind it, all of them, or the symbols and then the newlines; in front of a digit it
      stays alone; otherwise the chunk is whitespace up to where the whitespace ends. */
  lemma SpaceRule(s: seq<Byte>, i: nat) returns (m: nat, q: nat)
    requires Shaped(s) && Complete(s) && i < |s| && IsWhitespace(Cp(s, i)) && !IsNewline(Cp(s, i))
    ensures i + Adv(s[i]) <= m <= |s| && forall j | i + Adv(s[i]) <= j < m :: InlineSpace(s[j])
    ensures m < |s| ==> !InlineSpace(s[m])
    ensures var e, next := ChunkEnd(s, i), i + Adv(s[i]);
            if m < |s| && !IsWhitespace(s[m]) && m > i + 1 then e == m - 1
            else if next < |s| && IsLetter(Cp(s, next)) then
              next < e && AllOf(s, next, e, IsLetter) && StopsAt(s, e, IsLetter)
            else if next < |s| && IsDigit(Cp(s, next)) then e == next
            else if next < |s| && !IsWhitespace(Cp(s, next)) then
              next < q <= e && AllOf(s, next, q, IsPunct) && StopsAt(s, q, IsPunct) && Newlines(s, q, e)
            else m <= e && AllOf(s, m, e, IsWhitespace) && StopsAt(s, e, IsWhitespace)
  {
    hide *;
    Inside(s, i);
    var next := i + Adv(s[i]);
    m, q := ByteRunEnd(s, next, InlineSpace), RunEnd(s, next, IsPunct);
    SpaceChunk(s, i);
    InlineRun(s, next);
    RunIsMaximal(s, m, IsWhitespace);
    if next < |s| { BehindSpace(s, next); }
  }

  lemma InlineRun(s: seq<Byte>, i: nat)
    requires i <= |s|
    ensures var m := ByteRunEnd(s, i, InlineSpace);
            (forall j | i <= j < m :: InlineSpace(s[j])) && (m < |s| ==> !InlineSpace(s[m]))
  {
  }

  /** A chunk at a space, by the whitespace rule alone. */
  lemma SpaceChunk(s: seq<Byte>, i: nat)
    requires Complete(s) && i < |s| && IsWhitespace(Cp(s, i)) && !IsNewline(Cp(s, i))
    ensures var e, next := ChunkEnd(s, i), i + Adv(s[i]);
            var m := ByteRunEnd(s, next, InlineSpace);
            e == if m < |s| && !IsWhitespace(s[m]) && m > i + 1 then m - 1
                 else if next < |s| && IsLetter(Cp(s, next)) then RunEnd(s, next, IsLetter)
                 else if next < |s| && IsDigit(Cp(s, next)) then next
                 else if next < |s| && !IsWhitespace(Cp(s, next)) then ByteRunEnd(s, RunEnd(s, next, IsPunct), IsNewline)
                 else RunEnd(s, m, IsWhitespace)
  {
    NoQuote(Cp(s, i));
    hide Cp, RunEnd, ByteRunEnd, SuffixLen, IsLetter, IsDigit, IsQuote, IsPunct, IsNewline, IsWhitespace, Adv;
  }

  lemma BehindSpace(s: seq<Byte>, next: nat)
    requires Shaped(s) && Complete(s) && next < |s|
    ensures IsLetter(Cp(s, next)) ==>
              var e := RunEnd(s, next, IsLetter);
              next < e && AllOf(s, next, e, IsLetter) && StopsAt(s, e, IsLetter)
    ensures !IsLetter(Cp(s, next)) && !IsDigit(Cp(s, next)) && !IsWhitespace(Cp(s, next)) ==>
              var q := RunEnd(s, next, IsPunct);
              && next < q && AllOf(s, next, q, IsPunct) && StopsAt(s, q, IsPunct)
              && Newlines(s, q, ByteRunEnd(s, q, IsNewline))
  {
    NoQuote(Cp(s, next));
    RestIsPunct(Cp(s, next));
    hide *;
    Inside(s, next);
    RunIsMaximal(s, next, IsLetter);
    RunIsMaximal(s, next, IsPunct);
    NewlineRun(s, RunEnd(s, next, IsPunct));
    if IsLetter(Cp(s, next)) { RunGoesOn(s, next, IsLetter); }
    if IsPunct(Cp(s, next)) { RunGoesOn(s, next, IsPunct); }
  }

  lemma RestIsPunct(cp: int)
    ensures IsPunct(cp) <==> !IsLetter(cp) && !IsDigit(cp) && !IsWhitespace(cp)
  {
  }

  /** A contraction is one of 's 't 'm 'd 'll 're 've behind either quote, in either case, with no letter
      after it; then it is a chunk of its own. */
  lemma ContractionRule(s: seq<Byte>, i: nat)
    requires Complete(s) && i < |s|
    ensures var n, r := Contraction(s, i), i + Adv(s[i]);
            && (n > 0 ==> ChunkEnd(s, i) == r + n)
            && (n == 1 <==>
                  && (Cp(s, i) == 0x27 || Cp(s, i) == 0x2019) && r < |s|
                  && Lower(s[r]) in {0x73, 0x74, 0x6D, 0x64} && StopsAt(s, r + 1, IsLetter))
            && (n == 2 <==>
                  && (Cp(s, i) == 0x27 || Cp(s, i) == 0x2019) && r + 2 <= |s|
                  && [Lower(s[r]), Lower(s[r + 1])] in {[0x6C, 0x6C], [0x72, 0x65], [0x76, 0x65]}
                  && StopsAt(s, r + 2, IsLetter))
            && n <= 2
  {
    var r := i + Adv(s[i]);
    if Contraction(s, i) > 0 { ContractionEnd(s, i); }
    if IsQuote(Cp(s, i)) && r < |s| { SuffixCases(s, r); }
    hide Cp, ChunkEnd, SuffixLen, IsLetter, Adv, Lower, StopsAt;
  }

  lemma SuffixCases(s: seq<Byte>, r: nat)
    requires Complete(s) && r < |s|
    ensures var n := SuffixLen(s, r, 0);
            && (n == 1 <==> Lower(s[r]) in {0x73, 0x74, 0x6D, 0x64} && StopsAt(s, r + 1, IsLetter))
            && (n == 2 <==> r + 2 <= |s| && [Lower(s[r]), Lower(s[r + 1])] in {[0x6C, 0x6C], [0x72, 0x65], [0x76, 0x65]}
                            && StopsAt(s, r + 2, IsLetter))
            && n <= 2
  {
    SuffixUnrolled(s, r);
    hide SuffixLen, SuffixAt, Lower, StopsAt;
    OneByteSuffix(s, r, 0x73);
    OneByteSuffix(s, r, 0x74);
    OneByteSuffix(s, r, 0x6D);
    OneByteSuffix(s, r, 0x64);
    TwoByteSuffix(s, r, 0x6C, 0x6C);
    TwoByteSuffix(s, r, 0x72, 0x65);
    TwoByteSuffix(s, r, 0x76, 0x65);
  }

  lemma OneByteSuffix(s: seq<Byte>, r: nat, a: Byte)
    requires Complete(s) && r < |s|
    ensures SuffixAt(s, r, [a]) <==> Lower(s[r]) == a && StopsAt(s, r + 1, IsLetter)
  {
    hide Cp, IsLetter, Lower;
    var x := [a];
    assert (forall k | 0 <= k < |x| :: Lower(s[r + k]) == x[k]) <==> Lower(s[r + 0]) == x[0];
  }

  lemma TwoByteSuffix(s: seq<Byte>, r: nat, a: Byte, b: Byte)
    requires Complete(s) && r < |s|
    ensures SuffixAt(s, r, [a, b])
       <==> r + 2 <= |s| && [Lower(s[r]), Lower(s[r + 1])] == [a, b] && StopsAt(s, r + 2, IsLetter)
  {
    hide Cp, IsLetter, Lower;
    var x := [a, b];
    if r + 2 <= |s| {
      assert (forall k | 0 <= k < |x| :: Lower(s[r + k]) == x[k])
        <==> Lower(s[r + 0]) == x[0] && Lower(s[r + 1]) == x[1];
    }
  }

  lemma SuffixUnrolled(s: seq<Byte>, r: nat)
    requires Complete(s) && r <= |s|
    ensures SuffixLen(s, r, 0)
         == if SuffixAt(s, r, [0x6C, 0x6C]) || SuffixAt(s, r, [0x72, 0x65]) || SuffixAt(s, r, [0x76, 0x65]) then 2
            else if SuffixAt(s, r, [0x73]) || SuffixAt(s, r, [0x74]) || SuffixAt(s, r, [0x6D]) || SuffixAt(s, r, [0x64])
            then 1 else 0
  {
    hide SuffixAt;
    assert SuffixLen(s, r, 7) == 0;
    assert SuffixLen(s, r, 6) == if SuffixAt(s, r, [0x64]) then 1 else 0;
    assert SuffixLen(s, r, 5) == if SuffixAt(s, r, [0x6D]) then 1 else SuffixLen(s, r, 6);
    assert SuffixLen(s, r, 4) == if SuffixAt(s, r, [0x74]) then 1 else SuffixLen(s, r, 5);
    assert SuffixLen(s, r, 3) == if SuffixAt(s, r, [0x73]) then 1 else SuffixLen(s, r, 4);
    assert SuffixLen(s, r, 2) == if SuffixAt(s, r, [0x76, 0x65]) then 2 else SuffixLen(s, r, 3);
    assert SuffixLen(s, r, 1) == if SuffixAt(s, r, [0x72, 0x65]) then 2 else SuffixLen(s, r, 2);
  }

  // ----- what follows from them, chunk by chunk -------------------------------------------

  /** A byte below 0x80 is its own character. */
  lemma PlainByte(s: seq<Byte>, j: nat)
    requires Complete(s) && j < |s| && s[j] < 0x80
    ensures Adv(s[j]) == 1 && Cp(s, j) == s[j] && !IsCont(s[j])
  {
  }

  lemma PlainClasses(b: Byte)
    ensures InlineSpace(b) ==> !IsLetter(b) && !IsPunct(b) && !IsNewline(b) && b != 0x0A && b != 0x0D
    ensures IsNewline(b) <==> b == 0x0A || b == 0x0D
    ensures InlineSpace(b) && !IsCont(b) ==> b < 0x80
    ensures IsNewline(b) ==> !IsLetter(b) && !IsPunct(b) && !IsDigit(b) && IsWhitespace(b)
    ensures b in {0x20, 0x09, 0x0B, 0x0C} ==> InlineSpace(b)
  {
  }

  /** A character that starts in a byte run of whitespace is neither a letter nor a symbol. */
  lemma InSpaces(s: seq<Byte>, j: nat)
    requires Complete(s) && j < |s| && InlineSpace(s[j]) && !IsCont(s[j])
    ensures !IsLetter(Cp(s, j)) && !IsPunct(Cp(s, j))
  {
    PlainClasses(s[j]);
    PlainByte(s, j);
  }

  lemma InNewlines(s: seq<Byte>, j: nat)
    requires Complete(s) && j < |s|
    ensures s[j] == 0x0A || s[j] == 0x0D ==>
              && IsNewline(Cp(s, j)) && !IsCont(s[j]) && IsWhitespace(Cp(s, j))
              && !IsLetter(Cp(s, j)) && !IsPunct(Cp(s, j)) && !IsDigit(Cp(s, j))
  {
    if s[j] < 0x80 { PlainByte(s, j); }
    PlainClasses(s[j]);
  }

  /** What stands at byte p of a chunk, and what the chunk stops at: the facts the theorems share. */
  ghost predicate ChunkShape(s: seq<Byte>, i: nat, e: nat)
    requires Complete(s) && i < e <= |s|
  {
    && (forall p | i <= p < e && !IsCont(s[p]) && IsLetter(Cp(s, p)) :: StopsAt(s, e, IsLetter))
    && (e < |s| && (s[e] == 0x0A || s[e] == 0x0D) ==> s[e - 1] != 0x0A && s[e - 1] != 0x0D)
    && (forall p | i <= p < e && !IsCont(s[p]) && IsPunct(Cp(s, p)) && p + Adv(s[p]) == e ::
          StopsAt(s, e, IsPunct) && StopsAt(s, e, IsNewline) && (p == i ==> StopsAt(s, e, IsLetter)))
  }

  /** A chunk that is letters from byte j on, behind at most one character that is no letter. */
  lemma LettersShape(s: seq<Byte>, i: nat, j: nat, e: nat)
    requires Shaped(s) && Complete(s) && i <= j < e <= |s| && (i == j || j == i + Adv(s[i]))
    requires AllOf(s, j, e, IsLetter) && StopsAt(s, e, IsLetter)
    ensures ChunkShape(s, i, e)
  {
    if i < j { Continuation(s, i); }
    LastOfLetters(s, j, e);
    hide Cp, IsLetter, IsPunct, Shaped, Adv, AllOf;
  }

  lemma LastOfLetters(s: seq<Byte>, j: nat, e: nat)
    requires Complete(s) && j < e <= |s| && AllOf(s, j, e, IsLetter)
    ensures s[e - 1] != 0x0A && s[e - 1] != 0x0D
    ensures forall p | j <= p < e && !IsCont(s[p]) :: !IsPunct(Cp(s, p))
  {
    InNewlines(s, e - 1);
    forall p | j <= p < e && !IsCont(s[p]) ensures !IsPunct(Cp(s, p)) {
      assert IsLetter(Cp(s, p));
    }
  }

  /** A newline that a multi-byte sequence spells is ruled out in scannable texts. */
  lemma NewlineIsByte(s: seq<Byte>, j: nat)
    requires Scannable(s) && j < |s| && IsNewline(Cp(s, j))
    ensures s[j] == 0x0A || s[j] == 0x0D
  {
  }

  /** A chunk that is symbols from byte j to m and then newlines, behind at most one whitespace. */
  lemma SymbolsShape(s: seq<Byte>, i: nat, j: nat, m: nat, e: nat)
    requires Shaped(s) && Scannable(s) && i <= j < m <= e <= |s|
    requires i == j || (j == i + Adv(s[i]) && IsWhitespace(Cp(s, i)))
    requires AllOf(s, j, m, IsPunct) && StopsAt(s, m, IsPunct) && Newlines(s, m, e)
    requires i == j && i + Adv(s[i]) == e ==> StopsAt(s, e, IsLetter)
    ensures ChunkShape(s, i, e)
  {
    NoQuote(Cp(s, i));
    if i < j { Continuation(s, i); }
    forall p | i <= p < e && !IsCont(s[p])
      ensures !IsLetter(Cp(s, p)) && (IsPunct(Cp(s, p)) ==> j <= p < m && p + Adv(s[p]) <= m) {
      if p >= m { InNewlines(s, p); } else if p >= j { PunctApart(Cp(s, p)); }
    }
    if e < |s| && IsNewline(Cp(s, e)) { NewlineIsByte(s, e); }
    hide Cp, IsLetter, IsPunct, IsNewline, IsWhitespace, Shaped, Adv, Scannable;
  }

  /** A chunk without letters or symbols. */
  lemma BlankShape(s: seq<Byte>, i: nat, e: nat)
    requires Complete(s) && i < e <= |s|
    requires forall p | i <= p < e && !IsCont(s[p]) :: !IsLetter(Cp(s, p)) && !IsPunct(Cp(s, p))
    requires e < |s| && (s[e] == 0x0A || s[e] == 0x0D) ==> s[e - 1] != 0x0A && s[e - 1] != 0x0D
    ensures ChunkShape(s, i, e)
  {
  }

  lemma NewlinesShape(s: seq<Byte>, i: nat, e: nat)
    requires Complete(s) && i < e <= |s| && Newlines(s, i, e)
    ensures ChunkShape(s, i, e)
  {
    forall p | i <= p < e && !IsCont(s[p]) ensures !IsLetter(Cp(s, p)) && !IsPunct(Cp(s, p)) { InNewlines(s, p); }
    hide Cp, IsLetter, IsPunct;
    BlankShape(s, i, e);
  }

  lemma DigitShape(s: seq<Byte>, i: nat)
    requires Scannable(s) && i < |s| && IsDigit(Cp(s, i))
    ensures ChunkShape(s, i, i + 1)
  {
    NoQuote(Cp(s, i));
    DigitByte(s, i);
    hide Cp, IsLetter, IsPunct;
    BlankShape(s, i, i + 1);
  }

  lemma ContractionShape(s: seq<Byte>, i: nat)
    requires Shaped(s) && Complete(s) && i < |s| && Contraction(s, i) > 0
    ensures i < ChunkEnd(s, i) && ChunkShape(s, i, ChunkEnd(s, i))
  {
    ContractionRule(s, i);
    var r, n := i + Adv(s[i]), Contraction(s, i);
    AsciiLetters(s, r, n);
    hide Cp, IsLetter, IsPunct, Shaped, Adv, Contraction, ChunkEnd, AllOf, ChunkShape;
    LettersShape(s, i, r, r + n);
  }

  lemma AsciiLetters(s: seq<Byte>, r: nat, n: nat)
    requires Complete(s) && r + n <= |s| && 1 <= n <= 2
    requires n == 1 ==> Lower(s[r]) in {0x73, 0x74, 0x6D, 0x64}
    requires n == 2 ==> [Lower(s[r]), Lower(s[r + 1])] in {[0x6C, 0x6C], [0x72, 0x65], [0x76, 0x65]}
    ensures AllOf(s, r, r + n, IsLetter)
  {
    if n == 2 {
      var x := [Lower(s[r]), Lower(s[r + 1])];
      assert x[0] in {0x6C, 0x72, 0x76} && x[1] in {0x6C, 0x65};
    }
    forall p | r <= p < r + n ensures IsLetter(Cp(s, p)) && p + Adv(s[p]) <= r + n { LetterByte(s, p); }
  }

  lemma LetterByte(s: seq<Byte>, p: nat)
    requires Complete(s) && p < |s| && 0x61 <= Lower(s[p]) <= 0x7A
    ensures IsLetter(Cp(s, p)) && Adv(s[p]) == 1
  {
    PlainByte(s, p);
  }

  /** The whitespace rule without a word or symbols behind it. */
  lemma SpacesShape(s: seq<Byte>, i: nat, m: nat, e: nat)
    requires Shaped(s) && Complete(s) && i < |s| && IsWhitespace(Cp(s, i)) && i + Adv(s[i]) <= m <= |s| && i < e <= |s|
    requires forall j | i + Adv(s[i]) <= j < m :: InlineSpace(s[j])
    requires
      || e == m - 1
      || (e == i + Adv(s[i]) && e < |s| && IsDigit(Cp(s, e)))
      || (m <= e && AllOf(s, m, e, IsWhitespace) && StopsAt(s, e, IsWhitespace))
    ensures ChunkShape(s, i, e)
  {
    Continuation(s, i);
    var next := i + Adv(s[i]);
    forall p | i <= p < e && !IsCont(s[p]) ensures !IsLetter(Cp(s, p)) && !IsPunct(Cp(s, p)) {
      NoQuote(Cp(s, p));
      if next <= p < m { InSpaces(s, p); }
    }
    if e < |s| {
      InNewlines(s, e);
      if next <= e < m { PlainClasses(s[e]); }
    }
    hide Cp, IsLetter, IsPunct, IsDigit, IsWhitespace, InlineSpace, Shaped, Adv;
    BlankShape(s, i, e);
  }

  lemma SpaceShape(s: seq<Byte>, i: nat)
    requires Shaped(s) && Scannable(s) && i < |s| && IsWhitespace(Cp(s, i)) && !IsNewline(Cp(s, i))
    ensures i < ChunkEnd(s, i) && ChunkShape(s, i, ChunkEnd(s, i))
  {
    Advances(s, i);
    var m, q := SpaceRule(s, i);
    var e, next := ChunkEnd(s, i), i + Adv(s[i]);
    hide Cp, IsLetter, IsPunct, IsDigit, IsNewline, IsWhitespace, InlineSpace, Shaped, Adv, AllOf, StopsAt, ChunkEnd, ChunkShape,
         Newlines, NoOverlongAscii;
    if m < |s| && !IsWhitespace(s[m]) && m > i + 1 {
      SpacesShape(s, i, m, e);
    } else if next < |s| && IsLetter(Cp(s, next)) {
      LettersShape(s, i, next, e);
    } else if next < |s| && IsDigit(Cp(s, next)) {
      SpacesShape(s, i, m, e);
    } else if next < |s| && !IsWhitespace(Cp(s, next)) {
      SymbolsShape(s, i, next, q, e);
    } else {
      SpacesShape(s, i, m, e);
    }
  }

  /** Every chunk has the shape. */
  lemma EveryChunk(s: seq<Byte>, i: nat)
    requires Shaped(s) && Scannable(s) && i < |s|
    ensures i < ChunkEnd(s, i) && ChunkShape(s, i, ChunkEnd(s, i))
  {
    Advances(s, i);
    RestIsPunct(Cp(s, i));
    NoQuote(Cp(s, i));
    hide Cp, IsLetter, IsPunct, IsDigit, IsNewline, IsWhitespace, Shaped, Adv, AllOf, StopsAt, ChunkEnd, ChunkShape, Contraction,
         Newlines, NoOverlongAscii;
    var cp, next := Cp(s, i), i + Adv(s[i]);
    if Contraction(s, i) > 0 {
      ContractionShape(s, i);
    } else if IsLetter(cp) {
      WordRule(s, i);
      LettersShape(s, i, i, ChunkEnd(s, i));
    } else if IsDigit(cp) {
      DigitRule(s, i);
      DigitShape(s, i);
    } else if IsNewline(cp) {
      NewlineRule(s, i);
      NewlinesShape(s, i, ChunkEnd(s, i));
    } else if IsWhitespace(cp) {
      SpaceShape(s, i);
    } else if next < |s| && IsLetter(Cp(s, next)) {
      SymbolWordRule(s, i);
      LettersShape(s, i, next, ChunkEnd(s, i));
    } else {
      var m := SymbolRule(s, i);
      NoLetterBehind(s, next);
      SymbolsShape(s, i, i, m, ChunkEnd(s, i));
    }
  }

  lemma NoLetterBehind(s: seq<Byte>, e: nat)
    requires Complete(s) && e <= |s| && (e == |s| || !IsLetter(Cp(s, e)))
    ensures StopsAt(s, e, IsLetter)
  {
  }

  // ----- over whole texts -----------------------------------------------------------------

  lemma {:induction false} ChunkFrom(s: seq<Byte>, i: nat, k: nat)
    requires Scannable(s) && i <= |s| && k < |Chunks(s, i)|
    ensures Cut(s, i, k) < |s| && Chunks(s, i)[k] == s[Cut(s, i, k)..ChunkEnd(s, Cut(s, i, k))]
    decreases k
  {
    hide Chunks, ChunkEnd, Cut, Complete, NoOverlongAscii;
    ChunksStep(s, i);
    if k > 0 {
      ChunkFrom(s, ChunkEnd(s, i), k - 1);
      CutStep(s, i, k);
    } else {
      CutNone(s, i);
    }
  }

  /** Where chunk k of a text stands. */
  lemma ChunkSpan(s: seq<Byte>, k: nat) returns (i: nat, e: nat)
    requires Scannable(s) && k < |Chunks(s, 0)|
    ensures i == |Concat(Chunks(s, 0)[..k])| && e == |Concat(Chunks(s, 0)[..k + 1])|
    ensures i < e <= |s| && e == ChunkEnd(s, i) && Chunks(s, 0)[k] == s[i..e]
  {
    hide Chunks, ChunkEnd, Concat, Cut, Complete, NoOverlongAscii;
    ChunkFrom(s, 0, k);
    i := Cut(s, 0, k);
    Advances(s, i);
    CutOffset(s, 0, k);
    e := ChunkEnd(s, i);
    ConcatSnoc(Chunks(s, 0)[..k], Chunks(s, 0)[k]);
    assert Chunks(s, 0)[..k + 1] == Chunks(s, 0)[..k] + [Chunks(s, 0)[k]];
  }

  /** A space joins the word or the symbols behind it: a chunk that is one space or tab is followed by
      nothing but a digit or more whitespace. */
  lemma SpaceJoinsNext(s: seq<Byte>, k: nat)
    requires Shaped(s) && Scannable(s) && k < |Chunks(s, 0)|
    requires |Chunks(s, 0)[k]| == 1 && Chunks(s, 0)[k][0] in {0x20, 0x09, 0x0B, 0x0C}
    ensures var e := |Concat(Chunks(s, 0)[..k + 1])|;
            e <= |s| && (e < |s| ==> (IsDigit(Cp(s, e)) || IsWhitespace(Cp(s, e))) && !IsLetter(Cp(s, e)))
  {
    hide Chunks, Concat, ChunkEnd, NoOverlongAscii;
    var i, e := ChunkSpan(s, k);
    assert s[i..e][0] == s[i];
    LoneSpace(s, i);
  }

  lemma LoneSpace(s: seq<Byte>, i: nat)
    requires Shaped(s) && Scannable(s) && i < |s| && s[i] in {0x20, 0x09, 0x0B, 0x0C} && ChunkEnd(s, i) == i + 1
    ensures i + 1 < |s| ==> (IsDigit(Cp(s, i + 1)) || IsWhitespace(Cp(s, i + 1))) && !IsLetter(Cp(s, i + 1))
  {
    PlainByte(s, i);
    PlainClasses(s[i]);
    var m, q := SpaceRule(s, i);
    if i + 1 < |s| {
      RestIsPunct(Cp(s, i + 1));
      NoQuote(Cp(s, i + 1));
      if i + 1 < m { SpaceIsWhite(s, i + 1); }
    }
    hide Cp, IsLetter, IsPunct, IsDigit, IsNewline, IsWhitespace, InlineSpace, Shaped, Adv, ChunkEnd, NoOverlongAscii;
  }

  lemma SpaceIsWhite(s: seq<Byte>, j: nat)
    requires Complete(s) && j < |s| && InlineSpace(s[j])
    ensures IsWhitespace(Cp(s, j)) && !IsLetter(Cp(s, j))
  {
  }

  /** A chunk that holds a letter goes on to the end of the letters. */
  lemma LettersStayTogether(s: seq<Byte>, k: nat, p: nat)
    requires Shaped(s) && Scannable(s) && k < |Chunks(s, 0)|
    requires |Concat(Chunks(s, 0)[..k])| <= p < |Concat(Chunks(s, 0)[..k + 1])| <= |s| && !IsCont(s[p])
    requires IsLetter(Cp(s, p))
    ensures var e := |Concat(Chunks(s, 0)[..k + 1])|; e == |s| || !IsLetter(Cp(s, e))
  {
    hide Chunks, Concat, ChunkEnd, Cp, IsLetter, NoOverlongAscii;
    var i, e := ChunkSpan(s, k);
    EveryChunk(s, i);
  }

  /** No cut has a newline on both sides. */
  lemma NewlinesStayTogether(s: seq<Byte>, k: nat)
    requires Shaped(s) && Scannable(s) && k < |Chunks(s, 0)|
    ensures var e := |Concat(Chunks(s, 0)[..k + 1])|;
            0 < e <= |s| && !(s[e - 1] in {0x0A, 0x0D} && e < |s| && s[e] in {0x0A, 0x0D})
  {
    hide Chunks, Concat, ChunkEnd, Cp, IsLetter, NoOverlongAscii;
    var i, e := ChunkSpan(s, k);
    EveryChunk(s, i);
  }

  /** A symbol that ends a chunk has no symbol and no newline behind it, and no letter either when it is
      the whole chunk. */
  lemma SymbolsStayTogether(s: seq<Byte>, k: nat, p: nat)
    requires Shaped(s) && Scannable(s) && k < |Chunks(s, 0)|
    requires |Concat(Chunks(s, 0)[..k])| <= p < |Concat(Chunks(s, 0)[..k + 1])| <= |s| && !IsCont(s[p])
    requires IsPunct(Cp(s, p)) && p + Adv(s[p]) == |Concat(Chunks(s, 0)[..k + 1])|
    ensures var i, e := |Concat(Chunks(s, 0)[..k])|, |Concat(Chunks(s, 0)[..k + 1])|;
            e < |s| ==> !IsPunct(Cp(s, e)) && !IsNewline(Cp(s, e)) && (p == i ==> !IsLetter(Cp(s, e)))
  {
    hide Chunks, Concat, ChunkEnd, Cp, IsLetter, IsPunct, IsNewline, NoOverlongAscii;
    var i, e := ChunkSpan(s, k);
    EveryChunk(s, i);
  }

  // ----- the classes ----------------------------------------------------------------------

  /** In ASCII the classes are the expected ones. */
  lemma AsciiClasses(cp: int)
    requires 0 <= cp < 0x80
    ensures IsLetter(cp) <==> 'A' as int <= cp <= 'Z' as int || 'a' as int <= cp <= 'z' as int
    ensures IsDigit(cp) <==> '0' as int <= cp <= '9' as int
    ensures IsNewline(cp) <==> cp == '\n' as int || cp == '\r' as int
    ensures IsWhitespace(cp) <==> cp == ' ' as int || 9 <= cp <= 13
  {
  }
}
