/** What the sentence splitter and the packer of long texts do, without their loops: where sentences
    end, where a long one is cut, and when a piece is closed (split_text in tools/tts-server.cpp). */
module SplitRules {
  import opened Seqs
  import opened SplitText

  // ----- sentences ------------------------------------------------------------------------

  /** What has been read since the last sentence ends one: at a newline, at one of . ! ? before white
      space or nothing, or at one of the marks U+2026, U+3002, U+FF01 and U+FF1F. */
  predicate Ends(cur: Text, rest: Text) {
    && cur != []
    && var n := |cur|;
       || cur[n - 1] == 0x0A
       || (cur[n - 1] in {0x2E, 0x21, 0x3F} && (rest == [] || rest[0] in {0x20, 0x0A, 0x09}))
       || (n >= 3 && cur[n - 3] == 0xE2 && cur[n - 2] == 0x80 && cur[n - 1] == 0xA6)
       || (n >= 3 && cur[n - 3] == 0xE3 && cur[n - 2] == 0x80 && cur[n - 1] == 0x82)
       || (n >= 3 && cur[n - 3] == 0xEF && cur[n - 2] == 0xBC && cur[n - 1] in {0x81, 0x9F})
  }

  /** The text from byte a to byte b ends a sentence. */
  predicate EndsAt(s: Text, a: nat, b: nat) { a <= b <= |s| && Ends(s[a..b], s[b..]) }

  lemma EndsExactly(s: Text, from: nat, i: nat)
    requires from <= i < |s|
    ensures SentenceEnds(s, from, i) <==> EndsAt(s, from, i + 1)
  {
    var cur := s[from..i + 1];
    var n := |cur|;
    assert cur[n - 1] == s[i];
    MarkExactly(cur);
    hide EndsWithMark, MARKS;
  }

  lemma MarkExactly(cur: Text)
    ensures EndsWithMark(cur)
       <==> var n := |cur|;
            || (n >= 3 && cur[n - 3] == 0xE2 && cur[n - 2] == 0x80 && cur[n - 1] == 0xA6)
            || (n >= 3 && cur[n - 3] == 0xE3 && cur[n - 2] == 0x80 && cur[n - 1] == 0x82)
            || (n >= 3 && cur[n - 3] == 0xEF && cur[n - 2] == 0xBC && cur[n - 1] in {0x81, 0x9F})
  {
    var n := |cur|;
    if n >= 3 {
      var t := cur[n - 3..];
      assert t == [cur[n - 3], cur[n - 2], cur[n - 1]];
      Triple(t, 0xE2, 0x80, 0xA6);
      Triple(t, 0xE3, 0x80, 0x82);
      Triple(t, 0xEF, 0xBC, 0x81);
      Triple(t, 0xEF, 0xBC, 0x9F);
      assert t in MARKS <==> t == [0xE2, 0x80, 0xA6] || t == [0xE3, 0x80, 0x82] || t == [0xEF, 0xBC, 0x81] || t == [0xEF, 0xBC, 0x9F];
    }
  }

  lemma Triple(t: Text, a: Byte, b: Byte, c: Byte)
    requires |t| == 3
    ensures t == [a, b, c] <==> t[0] == a && t[1] == b && t[2] == c
  {
  }

  /** Sentence k of a text: it ends where a sentence ends, unless it is the last one, and nowhere
      before that. */
  lemma {:induction false} SentenceAt(s: Text, from: nat, i: nat, k: nat) returns (a: nat, b: nat)
    requires from <= i <= |s| && k < |Sentences(s, from, i)|
    requires forall j | from < j <= i :: !EndsAt(s, from, j)
    ensures from <= a == from + |Concat(Sentences(s, from, i)[..k])| <= b <= |s| && Sentences(s, from, i)[k] == s[a..b]
    ensures forall j | a < j < b :: !EndsAt(s, a, j)
    ensures if k + 1 < |Sentences(s, from, i)| then a < b && EndsAt(s, a, b)
            else b == |s| && (a < b ==> !EndsAt(s, a, b))
    decreases |s| - i
  {
    hide EndsAt, SentenceEnds, Concat;
    if i == |s| {
      a, b := from, |s|;
      assert s[from..] == s[from..|s|] && Sentences(s, from, i)[..0] == [];
      NoSentences();
    } else {
      EndsExactly(s, from, i);
      if SentenceEnds(s, from, i) {
        var rest := Sentences(s, i + 1, i + 1);
        if k == 0 {
          a, b := from, i + 1;
          assert Sentences(s, from, i)[..0] == [];
          NoSentences();
          SomeSentence(s, i + 1, i + 1);
        } else {
          a, b := SentenceAt(s, i + 1, i + 1, k - 1);
          assert Sentences(s, from, i)[..k] == [s[from..i + 1]] + rest[..k - 1];
          OneMore(s[from..i + 1], rest[..k - 1]);
        }
      } else {
        a, b := SentenceAt(s, from, i + 1, k);
      }
    }
  }

  lemma NoSentences()
    ensures Concat<Byte>([]) == []
  {
  }

  lemma OneMore(x: Text, rest: seq<Text>)
    ensures Concat([x] + rest) == x + Concat(rest)
  {
    assert ([x] + rest)[1..] == rest;
  }

  lemma {:induction false} SomeSentence(s: Text, from: nat, i: nat)
    requires from <= i <= |s|
    ensures |Sentences(s, from, i)| >= 1
    decreases |s| - i
  {
    if i < |s| && !SentenceEnds(s, from, i) { SomeSentence(s, from, i + 1); }
  }

  /** The sentences of a whole text. */
  lemma SentencesOf(s: Text, k: nat) returns (a: nat, b: nat)
    requires k < |Sentences(s, 0, 0)|
    ensures a == |Concat(Sentences(s, 0, 0)[..k])| <= b <= |s| && Sentences(s, 0, 0)[k] == s[a..b]
    ensures forall j | a < j < b :: !EndsAt(s, a, j)
    ensures k + 1 < |Sentences(s, 0, 0)| ==> a < b && EndsAt(s, a, b)
    ensures k + 1 == |Sentences(s, 0, 0)| ==> b == |s| && (a < b ==> !EndsAt(s, a, b))
  {
    hide EndsAt, Sentences, Concat;
    a, b := SentenceAt(s, 0, 0, k);
  }

  // ----- cuts -----------------------------------------------------------------------------

  /** Separator byte c and a space stand at k. */
  predicate SepAt(sent: Text, c: Byte, k: nat) { k + 2 <= |sent| && sent[k] == c && sent[k + 1] == 0x20 }

  /** One of ", " "; " ": " stands at k, in the second two thirds of the target. */
  predicate Candidate(sent: Text, target: nat, k: nat) {
    target / 3 < k <= target && (SepAt(sent, 0x2C, k) || SepAt(sent, 0x3B, k) || SepAt(sent, 0x3A, k))
  }

  lemma LastSep(sent: Text, c: Byte, target: nat)
    ensures var r := RFind(sent, [c, 0x20], target);
            && (r.Some? ==> r.value <= target && SepAt(sent, c, r.value))
            && forall k: nat | k <= target && SepAt(sent, c, k) :: r.Some? && k <= r.value
  {
    forall k: nat ensures StandsAt(sent, [c, 0x20], k) <==> SepAt(sent, c, k) {
      if k + 2 <= |sent| { assert sent[k..k + 2] == [sent[k], sent[k + 1]]; }
    }
    hide RFind, StandsAt;
  }

  lemma LastSpace(sent: Text, target: nat)
    requires |sent| > target
    ensures var r := RFind(sent, [0x20], target);
            && (r.Some? ==> r.value <= target && sent[r.value] == 0x20)
            && forall k: nat | k <= target && sent[k] == 0x20 :: r.Some? && k <= r.value
  {
    var r := RFind(sent, [0x20], target);
    forall k: nat | k <= target ensures StandsAt(sent, [0x20], k) <==> sent[k] == 0x20 {
      assert sent[k..k + 1] == [sent[k]];
    }
    hide RFind;
    forall k: nat | k <= target && sent[k] == 0x20 ensures r.Some? && k <= r.value { assert StandsAt(sent, [0x20], k); }
  }

  /** One of the separator bytes cs, and a space, stand at k, in the second two thirds. */
  predicate Among(sent: Text, target: nat, cs: set<Byte>, k: nat) {
    target / 3 < k <= target && exists c | c in cs :: SepAt(sent, c, k)
  }

  /** The cut is behind the last of them. */
  ghost predicate CutOf(sent: Text, target: nat, cs: set<Byte>, cut: Option<nat>) {
    && (cut.Some? ==> cut.value >= 1 && Among(sent, target, cs, cut.value - 1))
    && forall k: nat | Among(sent, target, cs, k) :: cut.Some? && k < cut.value
  }

  /** Separators are two bytes long, so the scan's strict comparison with the cut, one byte behind the
      separator, skips none. */
  lemma NotAdjacent(sent: Text, b: Byte, c: Byte, k: nat)
    requires SepAt(sent, b, k) && c != 0x20
    ensures !SepAt(sent, c, k + 1)
  {
  }

  lemma BetterStep(sent: Text, target: nat, cs: set<Byte>, c: Byte, cut: Option<nat>)
    requires CutOf(sent, target, cs, cut) && c != 0x20
    ensures CutOf(sent, target, cs + {c}, Better(cut, RFind(sent, [c, 0x20], target), target))
  {
    LastSep(sent, c, target);
    hide RFind, SepAt;
    var r := RFind(sent, [c, 0x20], target);
    var next := Better(cut, r, target);
    if cut.Some? {
      var b :| b in cs && SepAt(sent, b, cut.value - 1);
      NotAdjacent(sent, b, c, cut.value - 1);
    }
    forall k: nat | Among(sent, target, cs + {c}, k) ensures next.Some? && k < next.value {
      if !Among(sent, target, cs, k) { assert SepAt(sent, c, k); }
    }
    if next.Some? {
      if next == cut {
        var b :| b in cs && SepAt(sent, b, cut.value - 1);
        assert b in cs + {c};
      } else {
        assert c in cs + {c};
      }
    }
  }

  lemma AmongAll(sent: Text, target: nat, k: nat)
    ensures Among(sent, target, {0x2C, 0x3B, 0x3A}, k) <==> Candidate(sent, target, k)
  {
    hide SepAt;
    if Candidate(sent, target, k) {
      var c: Byte :| c in {0x2C, 0x3B, 0x3A} && SepAt(sent, c, k);
    }
  }

  /** What the scan of the separators adds up to. */
  lemma SeparatorsExactly(sent: Text, target: nat)
    ensures var cut := SeparatorCut(sent, target, 3);
            && (cut.Some? ==> cut.value >= 1 && Candidate(sent, target, cut.value - 1))
            && forall k: nat | Candidate(sent, target, k) :: cut.Some? && k < cut.value
  {
    SeparatorsUnrolled(sent, target);
    hide SeparatorCut, RFind, Among, Candidate, Better;
    var a := Better(None, RFind(sent, [0x2C, 0x20], target), target);
    var b := Better(a, RFind(sent, [0x3B, 0x20], target), target);
    AmongNone(sent, target);
    BetterStep(sent, target, {}, 0x2C, None);
    assert {} + {0x2C} == {0x2C};
    BetterStep(sent, target, {0x2C}, 0x3B, a);
    assert {0x2C} + {0x3B} == {0x2C, 0x3B};
    BetterStep(sent, target, {0x2C, 0x3B}, 0x3A, b);
    assert {0x2C, 0x3B} + {0x3A} == {0x2C, 0x3B, 0x3A};
    forall k: nat ensures Among(sent, target, {0x2C, 0x3B, 0x3A}, k) <==> Candidate(sent, target, k) {
      AmongAll(sent, target, k);
    }
  }

  lemma AmongNone(sent: Text, target: nat)
    ensures CutOf(sent, target, {}, None)
  {
  }

  /** The better of a cut and a separator at k. */
  function Better(cut: Option<nat>, k: Option<nat>, target: nat): Option<nat> {
    if k.Some? && k.value > target / 3 && (cut.None? || k.value > cut.value) then Some(k.value + 1) else cut
  }

  lemma SeparatorsUnrolled(sent: Text, target: nat)
    ensures SeparatorCut(sent, target, 3)
         == Better(Better(Better(None, RFind(sent, [0x2C, 0x20], target), target), RFind(sent, [0x3B, 0x20], target), target),
                   RFind(sent, [0x3A, 0x20], target), target)
  {
    hide RFind;
    assert SeparatorCut(sent, target, 0) == None;
    assert SeparatorCut(sent, target, 1) == Better(None, RFind(sent, [0x2C, 0x20], target), target);
    assert SeparatorCut(sent, target, 2)
        == Better(SeparatorCut(sent, target, 1), RFind(sent, [0x3B, 0x20], target), target);
  }

  /** A long sentence is cut behind the last separator in the second two thirds of the target; without
      one at the last space that is not its first byte, and without that after target bytes. */
  lemma CutExactly(sent: Text, target: nat)
    requires |sent| > target
    ensures forall k: nat | Candidate(sent, target, k) ::
              k < CutPoint(sent, target) && Candidate(sent, target, CutPoint(sent, target) - 1)
    ensures (forall k: nat :: !Candidate(sent, target, k)) ==>
              var cut := CutPoint(sent, target);
              && cut <= target && (forall k | cut < k <= target :: sent[k] != 0x20)
              && (cut < target ==> cut > 0 && sent[cut] == 0x20)
              && (cut == target && sent[target] != 0x20 ==> forall k | 1 <= k <= target :: sent[k] != 0x20)
  {
    SeparatorsExactly(sent, target);
    LastSpace(sent, target);
    hide SeparatorCut, RFind, Candidate;
  }

  // ----- packing --------------------------------------------------------------------------

  /** A sentence that fits behind what is collected is collected too; one that does not closes the
      piece, which is kept trimmed unless nothing is left of it. */
  lemma PackStep(p: Packing, sent: Text, target: nat)
    requires target >= 1 && |sent| <= target
    ensures Pack(p, sent, target)
         == if |p.acc| + |sent| <= target then Packing(p.pieces, p.acc + sent)
            else Packing(p.pieces + (if Trim(p.acc) == [] then [] else [Trim(p.acc)]), sent)
  {
    hide Trim;
    assert [] + sent == sent && p.pieces + [] == p.pieces;
  }

  /** A sentence that does not fit a piece closes the one collected and gives a piece of its own up to
      where it is cut; the rest goes on as a sentence. */
  lemma LongStep(p: Packing, sent: Text, target: nat)
    requires target >= 1 && |sent| > target
    ensures var cut := CutPoint(sent, target);
            && 0 < cut <= |sent|
            && Pack(p, sent, target)
               == Pack(Packing(p.pieces + (if Trim(p.acc) == [] then [] else [Trim(p.acc)])
                               + (if Trim(sent[..cut]) == [] then [] else [Trim(sent[..cut])]), []), sent[cut..], target)
  {
    CutMakesProgress(sent, target);
    CutDownStep(p, sent, target);
    hide Trim, CutPoint, CutDown;
    FlushIs(p);
    FlushIs(Packing(Flush(p).pieces, sent[..CutPoint(sent, target)]));
  }

  lemma FlushIs(p: Packing)
    ensures Flush(p) == Packing(p.pieces + (if Trim(p.acc) == [] then [] else [Trim(p.acc)]), [])
  {
    hide Trim;
    assert p.pieces + [] == p.pieces;
  }

  lemma CutDownStep(p: Packing, sent: Text, target: nat)
    requires target >= 1 && |sent| > target && 0 < CutPoint(sent, target)
    ensures var cut := CutPoint(sent, target);
            CutDown(p, sent, target) == CutDown(Flush(Flush(p).(acc := sent[..cut])), sent[cut..], target)
  {
    hide CutPoint, Flush;
  }

  // ----- greedy packing over whole texts --------------------------------------------------

  /** The trimmed texts of the groups, without the blank ones. */
  function Texts(groups: seq<seq<Text>>): seq<Text> {
    if groups == [] then []
    else
      var x := Trim(Concat(groups[|groups| - 1]));
      Texts(groups[..|groups| - 1]) + (if x == [] then [] else [x])
  }

  predicate Fits(groups: seq<seq<Text>>, target: nat) {
    forall k | 0 <= k < |groups| :: groups[k] != [] && |Concat(groups[k])| <= target
  }

  /** Not even the first sentence of group b would have fitted behind group a. */
  predicate Over(a: seq<Text>, b: seq<Text>, target: nat) { b != [] && |Concat(a)| + |b[0]| > target }

  predicate Full(groups: seq<seq<Text>>, target: nat) {
    forall k | 0 < k < |groups| :: Over(groups[k - 1], groups[k], target)
  }

  lemma TextsSnoc(groups: seq<seq<Text>>, g: seq<Text>)
    ensures Texts(groups + [g]) == Texts(groups) + (if Trim(Concat(g)) == [] then [] else [Trim(Concat(g))])
  {
    hide Trim, Concat;
    assert (groups + [g])[..|groups|] == groups;
  }

  /** Packing sentences that all fit a piece: they fall into consecutive groups, each as long as the
      target allows; all groups but the last are pieces, the last is still being collected. */
  lemma {:induction false} PackGreedily(sents: seq<Text>, target: nat) returns (done: seq<seq<Text>>, last: seq<Text>)
    requires target >= 1 && sents != [] && forall x | x in sents :: |x| <= target
    ensures Concat(done + [last]) == sents && Fits(done + [last], target) && Full(done + [last], target)
    ensures PackAll(Packing([], []), sents, target) == Packing(Texts(done), Concat(last))
    decreases |sents|
  {
    hide *;
    var n := |sents| - 1;
    var x := sents[n];
    assert sents == sents[..n] + [x] && x in sents && forall y | y in sents[..n] :: y in sents;
    if n == 0 {
      done, last := [], [x];
      FirstSentence(x, target);
      assert sents == [x] && [] + [last] == [last];
    } else {
      done, last := PackGreedily(sents[..n], target);
      PackAllStep(sents, target);
      done, last := NextSentence(sents[..n], done, last, x, target);
    }
  }

  lemma PackAllStep(sents: seq<Text>, target: nat)
    requires target >= 1 && sents != []
    ensures PackAll(Packing([], []), sents, target)
         == Pack(PackAll(Packing([], []), sents[..|sents| - 1], target), sents[|sents| - 1], target)
  {
    hide Pack;
  }

  lemma NextSentence(sents: seq<Text>, done: seq<seq<Text>>, last: seq<Text>, x: Text, target: nat)
    returns (done': seq<seq<Text>>, last': seq<Text>)
    requires target >= 1 && |x| <= target
    requires Concat(done + [last]) == sents && Fits(done + [last], target) && Full(done + [last], target)
    ensures Concat(done' + [last']) == sents + [x] && Fits(done' + [last'], target) && Full(done' + [last'], target)
    ensures Pack(Packing(Texts(done), Concat(last)), x, target) == Packing(Texts(done'), Concat(last'))
  {
    hide *;
    PackStep(Packing(Texts(done), Concat(last)), x, target);
    if |Concat(last)| + |x| <= target {
      done', last' := done, last + [x];
      ConcatSnoc(last, x);
      ConcatSnoc(done, last);
      ConcatSnoc(done, last + [x]);
      assert Concat(done) + (last + [x]) == Concat(done) + last + [x];
      Grow(done, last, x, target);
    } else {
      done', last' := done + [last], [x];
      TextsSnoc(done, last);
      ConcatSnoc(done + [last], [x]);
      Close(done + [last], x, target);
      OneMore(x, []);
      NoSentences();
      assert [x] + [] == [x] && x + [] == x;
    }
  }

  lemma FirstSentence(x: Text, target: nat)
    requires target >= 1 && |x| <= target
    ensures Concat([x]) == x && Concat([[x]]) == [x] && Texts([]) == []
    ensures Fits([[x]], target) && Full([[x]], target)
    ensures PackAll(Packing([], []), [x], target) == Packing([], x)
  {
    PackStep(Packing([], []), x, target);
    ConcatSnoc([], x);
    ConcatSnoc([], [x]);
    assert [] + [x] == [x] && [] + x == x && [] + [[x]] == [[x]] && [x][..0] == [];
    hide Pack, Concat, Trim;
    assert PackAll(Packing([], []), [], target) == Packing([], []);
  }

  lemma Grow(done: seq<seq<Text>>, last: seq<Text>, x: Text, target: nat)
    requires Fits(done + [last], target) && Full(done + [last], target) && |Concat(last + [x])| <= target
    ensures Fits(done + [last + [x]], target) && Full(done + [last + [x]], target)
  {
    hide Concat;
    var was, now := done + [last], done + [last + [x]];
    assert was[|done|] == last;
    forall k | 0 <= k < |now| ensures now[k] != [] && |Concat(now[k])| <= target {
      if k < |done| { assert now[k] == was[k]; }
    }
    forall k | 0 < k < |now| ensures Over(now[k - 1], now[k], target) {
      assert Over(was[k - 1], was[k], target) && now[k - 1] == was[k - 1];
      assert now[k][0] == was[k][0];
    }
  }

  lemma Close(groups: seq<seq<Text>>, x: Text, target: nat)
    requires groups != [] && Fits(groups, target) && Full(groups, target) && |x| <= target
    requires |Concat(groups[|groups| - 1])| + |x| > target
    ensures Fits(groups + [[x]], target) && Full(groups + [[x]], target)
  {
    FitsSnoc(groups, x, target);
    hide Concat, Fits, Over;
    var now := groups + [[x]];
    forall k | 0 < k < |now| ensures Over(now[k - 1], now[k], target) {
      if k < |groups| {
        assert now[k - 1] == groups[k - 1] && now[k] == groups[k];
      } else {
        OverOne(groups[k - 1], x, target);
      }
    }
  }

  lemma OverOne(a: seq<Text>, x: Text, target: nat)
    requires |Concat(a)| + |x| > target
    ensures Over(a, [x], target)
  {
  }

  lemma FitsSnoc(groups: seq<seq<Text>>, x: Text, target: nat)
    requires Fits(groups, target) && |x| <= target
    ensures Fits(groups + [[x]], target)
  {
    OneMore(x, []);
    NoSentences();
    assert [x] + [] == [x] && x + [] == x;
    hide Concat;
    var now := groups + [[x]];
    forall k | 0 <= k < |now| ensures now[k] != [] && |Concat(now[k])| <= target {
      if k < |groups| { assert now[k] == groups[k]; }
    }
  }

  /** Whole texts without overlong sentences: the pieces are the trimmed texts of consecutive groups of
      sentences, every group within the target and none that could have taken one sentence more. */
  lemma PiecesAreGreedy(s: Text, target: nat) returns (groups: seq<seq<Text>>)
    requires target >= 1 && forall x | x in Sentences(s, 0, 0) :: |x| <= target
    ensures Concat(groups) == Sentences(s, 0, 0) && Fits(groups, target) && Full(groups, target)
    ensures Pieces(s, target) == Texts(groups)
  {
    SomeSentence(s, 0, 0);
    hide Sentences, PackAll, Texts, Fits, Full, Concat, Flush;
    var done, last := PackGreedily(Sentences(s, 0, 0), target);
    FlushIs(Packing(Texts(done), Concat(last)));
    TextsSnoc(done, last);
    groups := done + [last];
  }
}
