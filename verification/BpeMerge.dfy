/** The merge loop of src/bpe.h (bpe_merge) against its reference: repeatedly join the leftmost
    adjacent pair of least rank. */
module BpeMerge {
  import opened Seqs

  type Token = seq<Byte>

  const INT_MAX := 0x7FFF_FFFF

  /** The lookup key of a pair: the two symbols with a space between them. */
  function Key(a: Token, b: Token): Token { a + [0x20] + b }

  /** Symbols p and p + 1 have a merge rule. */
  predicate Mergeable(ranks: map<Token, int>, work: seq<Token>, p: nat) {
    && p + 1 < |work|
    && Key(work[p], work[p + 1]) in ranks
    && ranks[Key(work[p], work[p + 1])] < INT_MAX
  }

  function Rank(ranks: map<Token, int>, work: seq<Token>, p: nat): int
    requires Mergeable(ranks, work, p)
  {
    ranks[Key(work[p], work[p + 1])]
  }

  /** p is the leftmost of the pairs of least rank among the first n. */
  ghost predicate BestOf(ranks: map<Token, int>, work: seq<Token>, p: nat, n: nat) {
    && p < n && Mergeable(ranks, work, p)
    && forall q: nat | q < n && Mergeable(ranks, work, q) ::
         Rank(ranks, work, p) < Rank(ranks, work, q)
         || (Rank(ranks, work, p) == Rank(ranks, work, q) && p <= q)
  }

  ghost predicate Best(ranks: map<Token, int>, work: seq<Token>, p: nat) {
    BestOf(ranks, work, p, |work|)
  }

  function MergeAt(work: seq<Token>, p: nat): seq<Token>
    requires p + 1 < |work|
  {
    work[..p] + [work[p] + work[p + 1]] + work[p + 2..]
  }

  /** The reference: join the best pair until no pair has a rule. */
  ghost function Merged(ranks: map<Token, int>, work: seq<Token>): seq<Token>
    decreases |work|
  {
    if exists p: nat :: Best(ranks, work, p) then
      var p: nat :| Best(ranks, work, p);
      Merged(ranks, MergeAt(work, p))
    else work
  }

  lemma {:induction false} BestExists(ranks: map<Token, int>, work: seq<Token>, n: nat) returns (p: nat)
    requires exists q: nat | q < n :: Mergeable(ranks, work, q)
    ensures BestOf(ranks, work, p, n)
    decreases n
  {
    if exists q: nat | q < n - 1 :: Mergeable(ranks, work, q) {
      p := BestExists(ranks, work, n - 1);
      if Mergeable(ranks, work, n - 1) && Rank(ranks, work, n - 1) < Rank(ranks, work, p) { p := n - 1; }
    } else {
      p := n - 1;
    }
  }

  lemma BestStep(ranks: map<Token, int>, work: seq<Token>, p: nat)
    requires Best(ranks, work, p)
    ensures p + 1 < |work| && |MergeAt(work, p)| == |work| - 1
    ensures Merged(ranks, work) == Merged(ranks, MergeAt(work, p))
  {
    hide Key;
    forall q: nat | Best(ranks, work, q) ensures q == p {
      assert Mergeable(ranks, work, p) && Mergeable(ranks, work, q);
    }
  }

  lemma NoBest(ranks: map<Token, int>, work: seq<Token>)
    requires forall q: nat | q < |work| :: !Mergeable(ranks, work, q)
    ensures Merged(ranks, work) == work
  {
  }

  /** The loop, with its linear search for the best pair, computes the reference. */
  method BpeMergeLoop(ranks: map<Token, int>, symbols: seq<Token>) returns (work: seq<Token>)
    ensures work == Merged(ranks, symbols)
  {
    hide Merged, MergeAt;
    if |symbols| <= 1 {
      NoBest(ranks, symbols);
      return symbols;
    }
    work := symbols;
    while |work| > 1
      invariant Merged(ranks, work) == Merged(ranks, symbols)
      decreases |work|
    {
      var bestRank, bestPos := INT_MAX, -1;
      for i := 0 to |work| - 1
        invariant -1 <= bestPos < i
        invariant bestPos < 0 ==> bestRank == INT_MAX && forall q: nat | q < i :: !Mergeable(ranks, work, q)
        invariant bestPos >= 0 ==> BestOf(ranks, work, bestPos, i) && bestRank == Rank(ranks, work, bestPos)
      {
        var key := Key(work[i], work[i + 1]);
        if key in ranks && ranks[key] < bestRank {
          bestRank, bestPos := ranks[key], i;
        }
      }
      if bestPos < 0 { break; }
      BestStep(ranks, work, bestPos);
      work := MergeAt(work, bestPos);
    }
    NoBest(ranks, work);
  }

  /** Merging preserves the text. */
  lemma {:induction false} MergedKeepsText(ranks: map<Token, int>, work: seq<Token>)
    ensures Concat(Merged(ranks, work)) == Concat(work)
    decreases |work|
  {
    hide Concat, MergeAt, Key;
    if exists p: nat :: Best(ranks, work, p) {
      var p: nat :| Best(ranks, work, p) && Merged(ranks, work) == Merged(ranks, MergeAt(work, p));
      MergeAtKeepsText(work, p);
      MergedKeepsText(ranks, MergeAt(work, p));
    }
  }

  lemma MergeAtKeepsText(work: seq<Token>, p: nat)
    requires p + 1 < |work|
    ensures |MergeAt(work, p)| == |work| - 1 && Concat(MergeAt(work, p)) == Concat(work)
  {
    hide Concat;
    ConcatJoin(work[..p], work[p], work[p + 1], work[p + 2..]);
    assert work[..p] + [work[p], work[p + 1]] + work[p + 2..] == work;
  }

  /** Merging goes on until no adjacent pair has a rule. */
  lemma {:induction false} MergedIsIrreducible(ranks: map<Token, int>, work: seq<Token>, q: nat)
    ensures !Mergeable(ranks, Merged(ranks, work), q)
    decreases |work|
  {
    if exists p: nat :: Best(ranks, work, p) {
      var p: nat :| Best(ranks, work, p) && Merged(ranks, work) == Merged(ranks, MergeAt(work, p));
      MergedIsIrreducible(ranks, MergeAt(work, p), q);
    } else if Mergeable(ranks, work, q) {
      var p := BestExists(ranks, work, |work|);
      assert Best(ranks, work, p);
    }
  }

  /** What holds of the symbols and is kept by every rule holds of the result. */
  lemma {:induction false} MergedKeeps(ranks: map<Token, int>, work: seq<Token>, good: Token -> bool)
    requires forall w | w in work :: good(w)
    requires forall a, b | good(a) && good(b) && Key(a, b) in ranks :: good(a + b)
    ensures forall w | w in Merged(ranks, work) :: good(w)
    decreases |work|
  {
    hide MergeAt, Key;
    if exists p: nat :: Best(ranks, work, p) {
      var p: nat :| Best(ranks, work, p) && Merged(ranks, work) == Merged(ranks, MergeAt(work, p));
      MergeAtKeeps(ranks, work, p, good);
      MergedKeeps(ranks, MergeAt(work, p), good);
    }
  }

  lemma MergeAtKeeps(ranks: map<Token, int>, work: seq<Token>, p: nat, good: Token -> bool)
    requires p + 1 < |work| && Key(work[p], work[p + 1]) in ranks
    requires forall w | w in work :: good(w)
    requires forall a, b | good(a) && good(b) && Key(a, b) in ranks :: good(a + b)
    ensures |MergeAt(work, p)| == |work| - 1 && forall w | w in MergeAt(work, p) :: good(w)
  {
    hide Key;
    assert good(work[p]) && good(work[p + 1]);
  }

  /** The pair at q, spelled "left space right", has a rule of rank r. */
  predicate HasRank(ranks: map<Token, int>, work: seq<Token>, q: nat, r: int) {
    && q + 1 < |work| && work[q] + [0x20] + work[q + 1] in ranks
    && ranks[work[q] + [0x20] + work[q + 1]] == r && r < 0x7FFF_FFFF
  }

  /** One merge: the pair of least rank, the leftmost of several, becomes one symbol, and merging goes
      on from there. */
  lemma MergeStep(ranks: map<Token, int>, work: seq<Token>, p: nat, r: int)
    requires HasRank(ranks, work, p, r)
    requires forall q: nat, t: int | HasRank(ranks, work, q, t) :: r < t || (r == t && p <= q)
    ensures p + 1 < |work|
    ensures Merged(ranks, work) == Merged(ranks, work[..p] + [work[p] + work[p + 1]] + work[p + 2..])
  {
    assert Best(ranks, work, p) by {
      forall q: nat | q < |work| && Mergeable(ranks, work, q)
        ensures Rank(ranks, work, p) < Rank(ranks, work, q) || (Rank(ranks, work, p) == Rank(ranks, work, q) && p <= q) {
        assert HasRank(ranks, work, q, Rank(ranks, work, q));
      }
    }
    forall q: nat | Best(ranks, work, q) ensures q == p {
      assert Mergeable(ranks, work, q);
      assert HasRank(ranks, work, q, Rank(ranks, work, q));
    }
  }

  /** Without a rule for any pair the symbols stay as they are. */
  lemma NoMerge(ranks: map<Token, int>, work: seq<Token>)
    requires forall q: nat, t: int :: !HasRank(ranks, work, q, t)
    ensures Merged(ranks, work) == work
  {
    forall p: nat ensures !Best(ranks, work, p) {
      if Mergeable(ranks, work, p) { assert HasRank(ranks, work, p, Rank(ranks, work, p)); }
    }
  }
}
