/** Splitting a long text into pieces of whole sentences (split_text in tools/tts-server.cpp). */
module SplitText {
  import opened Seqs

  type Text = seq<Byte>

  // ----- trimming -------------------------------------------------------------------------

  predicate Space(c: Byte) { c == 0x20 || c == 0x09 || c == 0x0D || c == 0x0A }

  function TrimLeft(x: Text): (r: Text)
    ensures |r| <= |x| && (r != [] ==> !Space(r[0]))
  {
    if x != [] && Space(x[0]) then TrimLeft(x[1..]) else x
  }

  function TrimRight(x: Text): (r: Text)
    ensures |r| <= |x| && (r != [] ==> !Space(r[|r| - 1]) && r[0] == x[0])
  {
    if x != [] && Space(x[|x| - 1]) then TrimRight(x[..|x| - 1]) else x
  }

  function Trim(x: Text): (r: Text)
    ensures |r| <= |x| && (r != [] ==> !Space(r[0]) && !Space(r[|r| - 1]))
  {
    TrimRight(TrimLeft(x))
  }

  /** The bytes that carry text: all but space, tab, carriage return and newline. */
  function Visible(x: Text): Text {
    if x == [] then [] else (if x[0] in {0x20, 0x09, 0x0D, 0x0A} then [] else [x[0]]) + Visible(x[1..])
  }

  lemma {:induction false} VisibleAppend(a: Text, b: Text)
    ensures Visible(a + b) == Visible(a) + Visible(b)
  {
    if a == [] {
      assert a + b == b;
    } else {
      assert (a + b)[1..] == a[1..] + b;
      VisibleAppend(a[1..], b);
    }
  }

  /** Trimming takes off only white space: what is left sits inside the original. */
  lemma {:induction false} TrimLeftParts(x: Text) returns (a: Text)
    ensures x == a + TrimLeft(x) && Visible(a) == []
  {
    a := [];
    if x != [] && Space(x[0]) {
      var b := TrimLeftParts(x[1..]);
      a := [x[0]] + b;
      assert a[1..] == b;
    }
  }

  lemma {:induction false} TrimRightParts(x: Text) returns (b: Text)
    ensures x == TrimRight(x) + b && Visible(b) == []
  {
    b := [];
    if x != [] && Space(x[|x| - 1]) {
      var c := TrimRightParts(x[..|x| - 1]);
      b := c + [x[|x| - 1]];
      VisibleAppend(c, [x[|x| - 1]]);
      assert Visible([x[|x| - 1]]) == [] by { assert [x[|x| - 1]][1..] == []; }
    }
  }

  lemma {:induction false} TrimParts(x: Text) returns (a: Text, b: Text)
    ensures x == a + Trim(x) + b && Visible(a) == [] && Visible(b) == []
    ensures Visible(Trim(x)) == Visible(x)
  {
    hide Trim, TrimLeft, TrimRight, Visible;
    a := TrimLeftParts(x);
    b := TrimRightParts(TrimLeft(x));
    TrimIs(x);
    assert a + Trim(x) + b == a + (Trim(x) + b);
    VisibleAppend(a + Trim(x), b);
    VisibleAppend(a, Trim(x));
  }

  lemma TrimIs(x: Text)
    ensures Trim(x) == TrimRight(TrimLeft(x))
  {
  }

  lemma {:induction false} InvisibleIsSpace(x: Text, i: nat)
    requires Visible(x) == [] && i < |x|
    ensures Space(x[i])
  {
    if i > 0 { InvisibleIsSpace(x[1..], i - 1); }
  }

  // ----- sentences ------------------------------------------------------------------------

  const MARKS: seq<Text> := [[0xE2, 0x80, 0xA6], [0xE3, 0x80, 0x82], [0xEF, 0xBC, 0x81], [0xEF, 0xBC, 0x9F]]

  predicate EndsWithMark(cur: Text) {
    |cur| >= 3 && cur[|cur| - 3..] in MARKS
  }

  /** The sentence s[from..] that has grown to cover byte i ends there. */
  predicate SentenceEnds(s: Text, from: nat, i: nat)
    requires from <= i < |s|
  {
    if s[i] == 0x0A then true
    else if (s[i] == 0x2E || s[i] == 0x21 || s[i] == 0x3F)
            && (i + 1 == |s| || s[i + 1] == 0x20 || s[i + 1] == 0x0A || s[i + 1] == 0x09) then true
    else EndsWithMark(s[from..i + 1])
  }

  /** The sentences of s from byte `from` on, when bytes up to i are known not to end one. */
  function Sentences(s: Text, from: nat, i: nat): seq<Text>
    requires from <= i <= |s|
    decreases |s| - i
  {
    if i == |s| then [s[from..]]
    else if SentenceEnds(s, from, i) then [s[from..i + 1]] + Sentences(s, i + 1, i + 1)
    else Sentences(s, from, i + 1)
  }

  lemma {:induction false} SentencesPartition(s: Text, from: nat, i: nat)
    requires from <= i <= |s|
    ensures Concat(Sentences(s, from, i)) == s[from..]
    decreases |s| - i
  {
    if i < |s| {
      if SentenceEnds(s, from, i) {
        SentencesPartition(s, i + 1, i + 1);
        assert s[from..] == s[from..i + 1] + s[i + 1..];
      } else {
        SentencesPartition(s, from, i + 1);
      }
    }
  }

  method CheckMarks(cur: Text) returns (end: bool)
    ensures end == EndsWithMark(cur)
  {
    end := false;
    for m := 0 to |MARKS|
      invariant end <==> |cur| >= 3 && exists j | 0 <= j < m :: cur[|cur| - 3..] == MARKS[j]
    {
      if |cur| >= 3 && cur[|cur| - 3..] == MARKS[m] { end := true; }
    }
  }

  method CheckEnd(s: Text, i: nat, cur: Text, ghost from: nat) returns (end: bool)
    requires from <= i < |s| && cur == s[from..i + 1]
    ensures end == SentenceEnds(s, from, i)
  {
    if s[i] == 0x0A { return true; }
    if (s[i] == 0x2E || s[i] == 0x21 || s[i] == 0x3F)
       && (i + 1 == |s| || s[i + 1] == 0x20 || s[i + 1] == 0x0A || s[i + 1] == 0x09) {
      return true;
    }
    end := CheckMarks(cur);
  }

  method SplitSentences(s: Text) returns (sentences: seq<Text>)
    ensures sentences == Sentences(s, 0, 0)
  {
    hide SentenceEnds;
    var cur: Text := [];
    sentences := [];
    ghost var from := 0;
    for i := 0 to |s|
      invariant from <= i && cur == s[from..i]
      invariant sentences + Sentences(s, from, i) == Sentences(s, 0, 0)
    {
      cur := cur + [s[i]];
      assert cur == s[from..i + 1];
      var end := CheckEnd(s, i, cur, from);
      if end {
        sentences, cur, from := sentences + [cur], [], i + 1;
      }
    }
    assert cur == s[from..];
    sentences := sentences + [cur];
  }

  // ----- where a long sentence is cut -----------------------------------------------------

  predicate StandsAt(s: Text, sub: Text, k: nat) {
    k + |sub| <= |s| && s[k..k + |sub|] == sub
  }

  /** Last occurrence that starts at or before k. */
  function RFind(s: Text, sub: Text, k: nat): (r: Option<nat>)
    ensures r.Some? ==> r.value <= k && StandsAt(s, sub, r.value)
    ensures forall j | 0 <= j <= k && StandsAt(s, sub, j) :: r.Some? && j <= r.value
  {
    if StandsAt(s, sub, k) then Some(k)
    else if k == 0 then None
    else RFind(s, sub, k - 1)
  }

  const SEPARATORS: seq<Text> := [[0x2C, 0x20], [0x3B, 0x20], [0x3A, 0x20]]

  /** The cut so far, after looking at the first n separators. */
  function SeparatorCut(sent: Text, target: nat, n: nat): (cut: Option<nat>)
    requires n <= |SEPARATORS|
    ensures cut.Some? ==> 1 <= target / 3 + 1 < cut.value <= target + 1 && cut.value <= |sent|
  {
    if n == 0 then None
    else
      var cut := SeparatorCut(sent, target, n - 1);
      var k := RFind(sent, SEPARATORS[n - 1], target);
      if k.Some? && k.value > target / 3 && (cut.None? || k.value > cut.value) then Some(k.value + 1) else cut
  }

  function CutPoint(sent: Text, target: nat): (cut: nat)
    requires |sent| > target
    ensures cut <= target + 1 <= |sent|
  {
    var cut := SeparatorCut(sent, target, 3);
    if cut.Some? then cut.value
    else
      var k := RFind(sent, [0x20], target);
      if k.Some? && k.value > 0 then k.value else target
  }

  /** A long sentence gets shorter with every cut exactly when the target is not zero: with target
      0, which the server uses for --split-chars 1, the loop would never end. */
  lemma CutMakesProgress(sent: Text, target: nat)
    requires |sent| > target
    ensures CutPoint(sent, target) > 0 <==> target >= 1
  {
  }

  // ----- packing --------------------------------------------------------------------------

  datatype Packing = Packing(pieces: seq<Text>, acc: Text)

  function Flush(p: Packing): Packing {
    Packing(if Trim(p.acc) != [] then p.pieces + [Trim(p.acc)] else p.pieces, [])
  }

  /** Cuts a sentence down to at most target bytes; the parts cut off become pieces. */
  function CutDown(p: Packing, sent: Text, target: nat): (r: (Packing, Text))
    requires target >= 1
    ensures |r.1| <= target
    ensures |sent| <= target ==> r == (p, sent)
    ensures |sent| > target ==> r.0.acc == []
    decreases |sent|
  {
    if |sent| > target then
      CutMakesProgress(sent, target);
      var cut := CutPoint(sent, target);
      CutDown(Flush(Flush(p).(acc := sent[..cut])), sent[cut..], target)
    else (p, sent)
  }

  function Pack(p: Packing, sent: Text, target: nat): Packing
    requires target >= 1
  {
    var (q, rest) := CutDown(p, sent, target);
    var r := if |q.acc| + |rest| > target then Flush(q) else q;
    r.(acc := r.acc + rest)
  }

  function PackAll(p: Packing, sentences: seq<Text>, target: nat): Packing
    requires target >= 1
    decreases |sentences|
  {
    if sentences == [] then p
    else Pack(PackAll(p, sentences[..|sentences| - 1], target), sentences[|sentences| - 1], target)
  }

  function Pieces(s: Text, target: nat): seq<Text>
    requires target >= 1
  {
    Flush(PackAll(Packing([], []), Sentences(s, 0, 0), target)).pieces
  }

  method FlushAcc(pieces: seq<Text>, acc: Text) returns (out: seq<Text>)
    ensures Packing(out, []) == Flush(Packing(pieces, acc))
  {
    var t := Trim(acc);
    out := if t != [] then pieces + [t] else pieces;
  }

  lemma ThreeSeparators()
    ensures |SEPARATORS| == 3
  {
  }

  method FindCut(sent: Text, target: nat) returns (cut: nat)
    requires |sent| > target
    ensures cut == CutPoint(sent, target)
  {
    hide RFind, SEPARATORS, StandsAt;
    assert |SEPARATORS| == 3 by { ThreeSeparators(); }
    var best: Option<nat> := None;
    for n := 0 to |SEPARATORS|
      invariant best == SeparatorCut(sent, target, n)
    {
      var k := RFind(sent, SEPARATORS[n], target);
      if k.Some? && k.value > target / 3 && (best.None? || k.value > best.value) { best := Some(k.value + 1); }
    }
    if best.None? {
      var k := RFind(sent, [0x20], target);
      return if k.Some? && k.value > 0 then k.value else target;
    }
    return best.value;
  }

  method SplitIntoPieces(s: Text, target: nat) returns (pieces: seq<Text>)
    requires target >= 1
    ensures pieces == Pieces(s, target)
  {
    hide CutPoint, Flush, Sentences;
    var sentences := SplitSentences(s);
    pieces := [];
    var acc: Text := [];
    for k := 0 to |sentences|
      invariant Packing(pieces, acc) == PackAll(Packing([], []), sentences[..k], target)
    {
      assert sentences[..k + 1][..k] == sentences[..k];
      ghost var start := Packing(pieces, acc);
      var sent := sentences[k];
      while |sent| > target
        invariant CutDown(Packing(pieces, acc), sent, target) == CutDown(start, sentences[k], target)
        decreases |sent|
      {
        CutMakesProgress(sent, target);
        var cut := FindCut(sent, target);
        FlushEmpties(Packing(pieces, acc));
        pieces := FlushAcc(pieces, acc);
        FlushEmpties(Packing(pieces, sent[..cut]));
        acc := sent[..cut];
        pieces := FlushAcc(pieces, acc);
        acc := [];
        sent := sent[cut..];
      }
      if |acc| + |sent| > target {
        FlushEmpties(Packing(pieces, acc));
        pieces := FlushAcc(pieces, acc);
        acc := [];
      }
      acc := acc + sent;
    }
    assert sentences[..|sentences|] == sentences;
    pieces := FlushAcc(pieces, acc);
  }

  lemma FlushEmpties(p: Packing)
    ensures Flush(p).acc == []
  {
  }

  // ----- nothing visible is lost ----------------------------------------------------------

  /** The visible bytes a packing holds. */
  function Kept(p: Packing): Text { Visible(Concat(p.pieces)) + Visible(p.acc) }

  lemma FlushKeeps(p: Packing)
    ensures Kept(Flush(p)) == Kept(p)
  {
    hide Trim;
    var a, b := TrimParts(p.acc);
    ConcatSnoc(p.pieces, Trim(p.acc));
    VisibleAppend(Concat(p.pieces), Trim(p.acc));
    assert Visible(Concat(p.pieces)) + [] == Visible(Concat(p.pieces));
  }

  lemma AccKeeps(p: Packing, x: Text)
    ensures Kept(p.(acc := p.acc + x)) == Kept(p) + Visible(x)
  {
    hide Visible, Concat;
    VisibleAppend(p.acc, x);
    assert Visible(Concat(p.pieces)) + (Visible(p.acc) + Visible(x)) == Kept(p) + Visible(x);
  }

  lemma {:induction false} CutDownKeeps(p: Packing, sent: Text, target: nat)
    requires target >= 1
    ensures var (q, rest) := CutDown(p, sent, target); Kept(q) + Visible(rest) == Kept(p) + Visible(sent)
    decreases |sent|
  {
    hide CutPoint, Flush, Kept, Visible;
    if |sent| > target {
      CutMakesProgress(sent, target);
      var cut := CutPoint(sent, target);
      var head := sent[..cut];
      var q := Flush(p);
      FlushEmpties(p);
      assert q.(acc := q.acc + head) == q.(acc := head) by { assert [] + head == head; }
      FlushKeeps(p);
      AccKeeps(q, head);
      FlushKeeps(q.(acc := head));
      CutDownKeeps(Flush(q.(acc := head)), sent[cut..], target);
      assert sent == head + sent[cut..];
      VisibleAppend(head, sent[cut..]);
      assert Kept(p) + Visible(head) + Visible(sent[cut..]) == Kept(p) + (Visible(head) + Visible(sent[cut..]));
    }
  }

  lemma {:induction false} PackKeeps(p: Packing, sent: Text, target: nat)
    requires target >= 1
    ensures Kept(Pack(p, sent, target)) == Kept(p) + Visible(sent)
  {
    hide Flush, Kept, Visible, CutDown;
    var (q, rest) := CutDown(p, sent, target);
    CutDownKeeps(p, sent, target);
    FlushKeeps(q);
    AccKeeps(q, rest);
    AccKeeps(Flush(q), rest);
  }

  lemma {:induction false} PackAllKeeps(p: Packing, sentences: seq<Text>, target: nat)
    requires target >= 1
    ensures Kept(PackAll(p, sentences, target)) == Kept(p) + Visible(Concat(sentences))
    decreases |sentences|
  {
    hide Kept, Pack, Visible, Concat;
    if sentences == [] {
      NothingKept();
      assert Kept(p) + [] == Kept(p);
    } else {
      var k := |sentences| - 1;
      PackAllKeeps(p, sentences[..k], target);
      PackKeeps(PackAll(p, sentences[..k], target), sentences[k], target);
      assert sentences == sentences[..k] + [sentences[k]];
      ConcatSnoc(sentences[..k], sentences[k]);
      VisibleAppend(Concat(sentences[..k]), sentences[k]);
      assert Kept(p) + Visible(Concat(sentences[..k])) + Visible(sentences[k])
          == Kept(p) + (Visible(Concat(sentences[..k])) + Visible(sentences[k]));
    }
  }

  /** Only white space is dropped: the other bytes of the pieces are those of the text, in order. */
  lemma PiecesKeepText(s: Text, target: nat)
    requires target >= 1
    ensures Visible(Concat(Pieces(s, target))) == Visible(s)
  {
    hide Sentences, PackAll, Visible, Flush;
    var p := PackAll(Packing([], []), Sentences(s, 0, 0), target);
    PackAllKeeps(Packing([], []), Sentences(s, 0, 0), target);
    SentencesPartition(s, 0, 0);
    assert s[0..] == s;
    FlushKeeps(p);
    FlushEmpties(p);
    NothingKept();
    assert Kept(Flush(p)) == Visible(Concat(Pieces(s, target))) + [];
    assert Kept(p) == [] + Visible(s) == Visible(s);
    assert Visible(Concat(Pieces(s, target))) + [] == Visible(Concat(Pieces(s, target)));
  }

  lemma NothingKept()
    ensures Visible([]) == [] && Visible(Concat([])) == [] && Kept(Packing([], [])) == []
  {
  }

  // ----- size and shape of the pieces -----------------------------------------------------

  predicate PieceOk(x: Text, target: nat) {
    x != [] && |x| <= target + 1 && x[0] !in {0x20, 0x09, 0x0D, 0x0A} && x[|x| - 1] !in {0x20, 0x09, 0x0D, 0x0A}
  }

  predicate PackingOk(p: Packing, target: nat) {
    |p.acc| <= target && forall x | x in p.pieces :: PieceOk(x, target)
  }

  lemma FlushOk(p: Packing, target: nat)
    requires |p.acc| <= target + 1 && forall x | x in p.pieces :: PieceOk(x, target)
    ensures PackingOk(Flush(p), target) && Flush(p).acc == []
  {
  }

  lemma {:induction false} CutDownOk(p: Packing, sent: Text, target: nat)
    requires target >= 1 && PackingOk(p, target)
    ensures PackingOk(CutDown(p, sent, target).0, target)
    decreases |sent|
  {
    hide CutPoint, Flush, PieceOk;
    if |sent| > target {
      CutMakesProgress(sent, target);
      FlushOk(p, target);
      var q := Flush(p).(acc := sent[..CutPoint(sent, target)]);
      FlushOk(q, target);
      CutDownOk(Flush(q), sent[CutPoint(sent, target)..], target);
    }
  }

  lemma {:induction false} PackAllOk(sentences: seq<Text>, target: nat)
    requires target >= 1
    ensures PackingOk(PackAll(Packing([], []), sentences, target), target)
    decreases |sentences|
  {
    hide Flush, PieceOk, CutDown;
    if sentences != [] {
      var k := |sentences| - 1;
      PackAllOk(sentences[..k], target);
      var p := PackAll(Packing([], []), sentences[..k], target);
      CutDownOk(p, sentences[k], target);
      FlushOk(CutDown(p, sentences[k], target).0, target);
    }
  }

  /** Every piece is non-empty, trimmed, and at most one byte over the target. */
  lemma PiecesFit(s: Text, target: nat)
    requires target >= 1
    ensures forall x | x in Pieces(s, target) :: PieceOk(x, target)
  {
    hide Flush, PackAll, Sentences;
    PackAllOk(Sentences(s, 0, 0), target);
    FlushOk(PackAll(Packing([], []), Sentences(s, 0, 0), target), target);
  }

  // ----- sentences stay whole -------------------------------------------------------------

  ghost predicate Within(y: Text, x: Text) { exists a, b :: x == a + y + b }

  /** Sentence y is somewhere in the packing: trimmed in a piece, or still in the accumulator. */
  ghost predicate Stored(p: Packing, y: Text) {
    (exists x | x in p.pieces :: Within(Trim(y), x)) || Within(y, p.acc) || Trim(y) == []
  }

  /** Trimming around a text cannot reach into its trimmed core. */
  lemma TrimKeepsCore(x: Text, core: Text, a: Text, b: Text)
    requires x == a + core + b && core != [] && !Space(core[0]) && !Space(core[|core| - 1])
    ensures Within(core, Trim(x))
  {
    hide Trim, Visible;
    var l, r := TrimParts(x);
    var t := Trim(x);
    if |l| > |a| {
      assert x[|a|] == core[0] && x[|a|] == l[|a|];
      InvisibleIsSpace(l, |a|);
    }
    if |r| > |b| {
      var i := |x| - |b| - 1;
      assert x[i] == core[|core| - 1];
      assert x[i] == r[i - |l + t|];
      InvisibleIsSpace(r, i - |l + t|);
    }
    assert t == x[|l|..|x| - |r|];
    assert t == a[|l|..] + core + b[..|b| - |r|];
  }

  lemma FlushStores(p: Packing, y: Text)
    requires Stored(p, y)
    ensures Stored(Flush(p), y)
  {
    hide Trim;
    if Trim(y) != [] {
      if x :| x in p.pieces && Within(Trim(y), x) {
        assert x in Flush(p).pieces;
      } else {
        var a, b :| p.acc == a + y + b;
        CoreSurvives(p.acc, y, a, b);
        assert Flush(p).pieces[|p.pieces|] == Trim(p.acc);
      }
    }
  }

  lemma CoreSurvives(x: Text, y: Text, a: Text, b: Text)
    requires x == a + y + b && Trim(y) != []
    ensures Within(Trim(y), Trim(x)) && Trim(x) != []
  {
    hide Trim;
    var l, r := TrimParts(y);
    assert x == (a + l) + Trim(y) + (r + b);
    TrimKeepsCore(x, Trim(y), a + l, r + b);
    WithinNothing(Trim(y));
  }

  /** Pieces are only added, and what is flushed is stored. */
  lemma AddStores(p: Packing, x: Text, y: Text)
    requires Stored(p, y)
    ensures Stored(p.(acc := p.acc + x), y)
  {
    if Within(y, p.acc) {
      var a, b :| p.acc == a + y + b;
      assert p.acc + x == a + y + (b + x);
    }
  }

  lemma {:induction false} CutDownStores(p: Packing, sent: Text, target: nat, y: Text)
    requires target >= 1 && Stored(p, y)
    ensures Stored(CutDown(p, sent, target).0, y)
    decreases |sent|
  {
    hide CutPoint, Flush, Stored;
    if |sent| > target {
      CutMakesProgress(sent, target);
      var head := sent[..CutPoint(sent, target)];
      FlushStores(p, y);
      FlushEmpties(p);
      AddStores(Flush(p), head, y);
      assert [] + head == head;
      FlushStores(Flush(p).(acc := head), y);
      CutDownStores(Flush(Flush(p).(acc := head)), sent[CutPoint(sent, target)..], target, y);
    }
  }

  lemma PackStores(p: Packing, sent: Text, target: nat, y: Text)
    requires target >= 1 && (Stored(p, y) || (y == sent && |sent| <= target))
    ensures Stored(Pack(p, sent, target), y)
  {
    hide Flush, Stored, CutDown;
    var (q, rest) := CutDown(p, sent, target);
    var r := if |q.acc| + |rest| > target then Flush(q) else q;
    if Stored(p, y) {
      CutDownStores(p, sent, target, y);
      FlushStores(q, y);
      AddStores(r, rest, y);
    } else {
      AddedIsStored(r, y);
    }
  }

  lemma AddedIsStored(p: Packing, y: Text)
    ensures Stored(p.(acc := p.acc + y), y)
  {
    assert p.acc + y == p.acc + y + [];
  }

  lemma {:induction false} PackAllStores(sentences: seq<Text>, target: nat, k: nat)
    requires target >= 1 && k < |sentences| && |sentences[k]| <= target
    ensures Stored(PackAll(Packing([], []), sentences, target), sentences[k])
    decreases |sentences|
  {
    hide Stored, Pack;
    var n := |sentences| - 1;
    if k < n { PackAllStores(sentences[..n], target, k); }
    PackStores(PackAll(Packing([], []), sentences[..n], target), sentences[n], target, sentences[k]);
  }

  /** No sentence that fits the target is ever torn: trimmed, it is a contiguous part of one piece. */
  lemma SentencesStayWhole(s: Text, target: nat, k: nat)
    requires target >= 1 && k < |Sentences(s, 0, 0)| && |Sentences(s, 0, 0)[k]| <= target
    requires Trim(Sentences(s, 0, 0)[k]) != []
    ensures exists x | x in Pieces(s, target) :: Within(Trim(Sentences(s, 0, 0)[k]), x)
  {
    hide Sentences, PackAll, Flush, Trim;
    var y := Sentences(s, 0, 0)[k];
    var p := PackAll(Packing([], []), Sentences(s, 0, 0), target);
    PackAllStores(Sentences(s, 0, 0), target, k);
    FlushStores(p, y);
    FlushEmpties(p);
    WithinNothing(y);
    TrimNothing();
  }

  lemma WithinNothing(y: Text)
    ensures Within(y, []) ==> y == []
  {
    forall a: Text, b: Text | [] == a + y + b ensures y == [] {
      assert |a + y + b| == |a| + |y| + |b|;
    }
  }

  lemma TrimNothing()
    ensures Trim([]) == []
  {
  }
}
