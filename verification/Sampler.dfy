/** Token sampling (src/sampling.h): suppression, repetition penalty, temperature, top-k, top-p and
    the inverse-CDF draw. Logits are reals or minus infinity; exp is any positive, strictly
    increasing function. */
module Sampler {
  import Philox

  datatype Logit = NegInf | Fin(v: real)

  type Logits = seq<Logit>

  datatype TokenProb = TokenProb(id: nat, prob: real)

  predicate Less(a: Logit, b: Logit) {
    b.Fin? && (a.NegInf? || a.v < b.v)
  }

  ghost predicate SomeOpen(l: Logits) { exists i | 0 <= i < |l| :: l[i].Fin? }

  // ----- suppression and penalty ----------------------------------------------------------

  /** Ids in [lo, hi) other than keep are masked. */
  function Suppressed(l: Logits, lo: int, hi: int, keep: int): (r: Logits)
    ensures |r| == |l|
  {
    seq(|l|, i requires 0 <= i < |l| => if lo <= i < hi && i != keep then NegInf else l[i])
  }

  method ApplySuppress(a: array<Logit>, V: nat, lo: int, hi: int, keep: int)
    requires V == a.Length
    modifies a
    ensures a[..] == Suppressed(old(a[..]), lo, hi, keep)
    ensures forall i | 0 <= i < V :: a[i] == if lo <= i < hi && i != keep then NegInf else old(a[i])
  {
    var from := if lo < 0 then 0 else lo;
    var to := if hi > V then V else hi;
    var i := from;
    while i < to
      invariant from <= i
      invariant forall j | 0 <= j < V :: a[j] == if from <= j < i && j < to && j != keep then NegInf else old(a[j])
    {
      if i != keep { a[i] := NegInf; }
      i := i + 1;
    }
  }

  function Penalize(x: Logit, penalty: real): Logit
    requires penalty > 0.0
  {
    if x.NegInf? then NegInf else Fin(if x.v < 0.0 then x.v * penalty else x.v / penalty)
  }

  /** Every id that occurs in the history is penalised once. */
  function Penalized(l: Logits, history: seq<int>, penalty: real): (r: Logits)
    requires penalty > 0.0
    ensures |r| == |l|
  {
    seq(|l|, i requires 0 <= i < |l| => if i in history then Penalize(l[i], penalty) else l[i])
  }

  /** A score of 0 or more is divided by the penalty, a negative one multiplied, so that a penalty above
      1 lowers every score but 0. */
  lemma PenalizeLowers(x: real, penalty: real)
    requires penalty > 0.0
    ensures var y := Penalize(Fin(x), penalty);
            && y.Fin? && (x >= 0.0 ==> y.v * penalty == x) && (x < 0.0 ==> y.v == x * penalty)
            && (penalty > 1.0 && x != 0.0 ==> y.v < x)
  {
    if penalty > 1.0 && x < 0.0 { Positive(-x, penalty - 1.0); }
    if penalty > 1.0 && x > 0.0 {
      var y := x / penalty;
      assert y * penalty == x;
      if y >= x { Positive(y, penalty - 1.0); }
    }
  }

  lemma PenalizeEach(l: Logits, penalty: real)
    requires penalty > 0.0
    ensures forall i | 0 <= i < |l| && l[i].NegInf? :: Penalize(l[i], penalty) == NegInf
    ensures forall i | 0 <= i < |l| && l[i].Fin? ::
              && Penalize(l[i], penalty).Fin?
              && (l[i].v >= 0.0 ==> Penalize(l[i], penalty).v * penalty == l[i].v)
              && (l[i].v < 0.0 ==> Penalize(l[i], penalty).v == l[i].v * penalty)
              && (penalty > 1.0 && l[i].v != 0.0 ==> Penalize(l[i], penalty).v < l[i].v)
  {
    forall i | 0 <= i < |l| && l[i].Fin?
      ensures var y := Penalize(l[i], penalty);
              && y.Fin? && (l[i].v >= 0.0 ==> y.v * penalty == l[i].v) && (l[i].v < 0.0 ==> y.v == l[i].v * penalty)
              && (penalty > 1.0 && l[i].v != 0.0 ==> y.v < l[i].v) {
      PenalizeLowers(l[i].v, penalty);
    }
  }

  lemma PenaltyOne(l: Logits)
    ensures forall i | 0 <= i < |l| :: Penalize(l[i], 1.0) == l[i]
  {
  }

  method ApplyRepetitionPenalty(a: array<Logit>, V: nat, history: seq<int>, penalty: real)
    requires V == a.Length && penalty > 0.0
    modifies a
    ensures a[..] == Penalized(old(a[..]), history, penalty)
    ensures forall i | 0 <= i < V && (i !in history || old(a[i]).NegInf?) :: a[i] == old(a[i])
    ensures forall i | 0 <= i < V && i in history && old(a[i]).Fin? ::
              && a[i].Fin?
              && (old(a[i]).v >= 0.0 ==> a[i].v * penalty == old(a[i]).v)
              && (old(a[i]).v < 0.0 ==> a[i].v == old(a[i]).v * penalty)
              && (penalty > 1.0 && old(a[i]).v != 0.0 ==> a[i].v < old(a[i]).v)
  {
    hide Penalize;
    ghost var l := a[..];
    if penalty == 1.0 || |history| == 0 {
      PenaltyOne(l);
      PenalizeEach(l, penalty);
      return;
    }
    var seen := new bool[V](_ => false);
    for h := 0 to |history|
      invariant forall i | 0 <= i < V :: seen[i] == (i in history[..h])
      invariant forall i | 0 <= i < V :: a[i] == if i in history[..h] then Penalize(old(a[i]), penalty) else old(a[i])
    {
      var tok := history[h];
      assert history[..h + 1] == history[..h] + [tok];
      if 0 <= tok < V && !seen[tok] {
        seen[tok] := true;
        var s := a[tok];
        a[tok] := Penalize(s, penalty);
      }
    }
    assert history[..|history|] == history;
    PenalizeEach(l, penalty);
  }

  function Times(x: Logit, factor: real): Logit {
    if x.NegInf? then NegInf else Fin(x.v * factor)
  }

  function Scaled(l: Logits, temperature: real): (r: Logits)
    requires temperature > 0.0
    ensures |r| == |l|
  {
    var inv := 1.0 / temperature;
    seq(|l|, i requires 0 <= i < |l| => Times(l[i], inv))
  }

  lemma TimesInverse(l: Logits, temperature: real)
    requires temperature > 0.0
    ensures forall i | 0 <= i < |l| ::
              var x := Times(l[i], 1.0 / temperature);
              x.Fin? == l[i].Fin? && (x.Fin? ==> x.v * temperature == l[i].v)
  {
    forall i | 0 <= i < |l| && l[i].Fin? ensures Times(l[i], 1.0 / temperature).v * temperature == l[i].v {
      UndoFactor(l[i].v, 1.0 / temperature, temperature);
    }
  }

  lemma UndoFactor(x: real, inv: real, f: real)
    requires inv * f == 1.0
    ensures x * inv * f == x
  {
    assert x * inv * f == x * (inv * f);
  }

  method ApplyTemperature(a: array<Logit>, V: nat, temperature: real)
    requires V == a.Length && temperature > 0.0
    modifies a
    ensures a[..] == Scaled(old(a[..]), temperature)
    ensures forall i | 0 <= i < V :: a[i].Fin? == old(a[i]).Fin? && (a[i].Fin? ==> a[i].v * temperature == old(a[i]).v)
  {
    TimesInverse(a[..], temperature);
    hide Times;
    var inv := 1.0 / temperature;
    for i := 0 to V
      invariant forall j | 0 <= j < V :: a[j] == if j < i then Times(old(a[j]), inv) else old(a[j])
    {
      a[i] := Times(a[i], inv);
    }
  }

  // ----- maximum --------------------------------------------------------------------------

  function MaxLogit(l: Logits): (m: Logit)
    ensures forall i | 0 <= i < |l| :: !Less(m, l[i])
    ensures m.Fin? ==> m in l
  {
    if l == [] then NegInf
    else
      var n := |l| - 1;
      var m := MaxLogit(l[..n]);
      if Less(m, l[n]) then l[n] else m
  }

  method FindMax(a: array<Logit>, V: nat) returns (m: Logit)
    requires V == a.Length
    ensures m == MaxLogit(a[..])
  {
    m := NegInf;
    for i := 0 to V
      invariant m == MaxLogit(a[..i])
    {
      assert a[..i + 1][..i] == a[..i];
      if Less(m, a[i]) { m := a[i]; }
    }
    assert a[..V] == a[..];
  }

  /** std::max_element: the first of the greatest. */
  predicate FirstMax(l: Logits, k: nat) {
    k < |l| && (forall j | 0 <= j < |l| :: !Less(l[k], l[j])) && forall j | 0 <= j < k :: Less(l[j], l[k])
  }

  method ArgMax(a: array<Logit>, V: nat) returns (k: nat)
    requires V == a.Length && V > 0
    ensures FirstMax(a[..], k) && k < V
    ensures forall j | 0 <= j < V && a[j].Fin? :: a[k].Fin? && a[k].v >= a[j].v
    ensures forall j | 0 <= j < k && a[j].Fin? :: a[k].Fin? && a[k].v > a[j].v
  {
    k := 0;
    for i := 1 to V
      invariant k < i && (forall j | 0 <= j < i :: !Less(a[k], a[j])) && forall j | 0 <= j < k :: Less(a[j], a[k])
    {
      if Less(a[k], a[i]) { k := i; }
    }
  }

  // ----- top-k ----------------------------------------------------------------------------

  function CountAbove(l: Logits, t: Logit): nat {
    if l == [] then 0 else CountAbove(l[..|l| - 1], t) + (if Less(t, l[|l| - 1]) then 1 else 0)
  }

  function CountAtLeast(l: Logits, t: Logit): nat {
    if l == [] then 0 else CountAtLeast(l[..|l| - 1], t) + (if Less(l[|l| - 1], t) then 0 else 1)
  }

  /** t is the k-th largest value, repeats counted. */
  predicate KthLargest(l: Logits, k: int, t: Logit) {
    t in l && CountAbove(l, t) < k <= CountAtLeast(l, t)
  }

  lemma {:induction false} CountsJoin(a: Logits, b: Logits, t: Logit)
    ensures CountAbove(a + b, t) == CountAbove(a, t) + CountAbove(b, t)
    ensures CountAtLeast(a + b, t) == CountAtLeast(a, t) + CountAtLeast(b, t)
  {
    if b == [] {
      assert a + b == a;
    } else {
      var n := |b| - 1;
      assert (a + b)[..|a + b| - 1] == a + b[..n];
      CountsJoin(a, b[..n], t);
    }
  }

  lemma {:induction false} CountsOrder(l: Logits, s: Logit, t: Logit)
    requires Less(s, t)
    ensures CountAtLeast(l, t) <= CountAbove(l, s)
  {
    if l != [] { CountsOrder(l[..|l| - 1], s, t); }
  }

  /** There is only one k-th largest value. */
  lemma KthLargestUnique(l: Logits, k: int, s: Logit, t: Logit)
    requires KthLargest(l, k, s) && KthLargest(l, k, t)
    ensures s == t
  {
    if Less(s, t) { CountsOrder(l, s, t); }
    if Less(t, s) { CountsOrder(l, t, s); }
  }

  lemma CountsWithout(l: Logits, i: nat, t: Logit)
    requires i < |l|
    ensures CountAbove(l, t) == CountAbove(l[..i] + l[i + 1..], t) + (if Less(t, l[i]) then 1 else 0)
    ensures CountAtLeast(l, t) == CountAtLeast(l[..i] + l[i + 1..], t) + (if Less(l[i], t) then 0 else 1)
  {
    assert l == l[..i] + ([l[i]] + l[i + 1..]);
    CountsJoin(l[..i], [l[i]] + l[i + 1..], t);
    CountsJoin([l[i]], l[i + 1..], t);
    CountsJoin(l[..i], l[i + 1..], t);
    assert [l[i]][..0] == [];
  }

  lemma {:induction false} NoneAbove(l: Logits, t: Logit)
    requires forall j | 0 <= j < |l| :: !Less(t, l[j])
    ensures CountAbove(l, t) == 0
  {
    if l != [] { NoneAbove(l[..|l| - 1], t); }
  }

  /** What std::nth_element leaves at position k - 1: by taking maxima out of a copy. */
  method NthElement(l: Logits, k: nat) returns (t: Logit)
    requires 1 <= k <= |l|
    ensures KthLargest(l, k, t)
    decreases k
  {
    var best := 0;
    for i := 1 to |l|
      invariant best < i && forall j | 0 <= j < i :: !Less(l[best], l[j])
    {
      if Less(l[best], l[i]) { best := i; }
    }
    if k == 1 {
      t := l[best];
      NoneAbove(l, t);
      CountsWithout(l, best, t);
    } else {
      var rest := l[..best] + l[best + 1..];
      t := NthElement(rest, k - 1);
      CountsWithout(l, best, t);
    }
  }

  function Masked(l: Logits, t: Logit): (r: Logits)
    ensures |r| == |l|
  {
    seq(|l|, i requires 0 <= i < |l| => if Less(l[i], t) then NegInf else l[i])
  }

  /** Top-k keeps exactly the values at or above the k-th largest; k outside (0, V) keeps all. */
  ghost predicate TopK(l: Logits, k: int, out: Logits) {
    if 0 < k < |l| then exists t :: KthLargest(l, k, t) && out == Masked(l, t) else out == l
  }

  /** The ids that score above t. */
  function Above(l: Logits, t: Logit): set<nat> { set j | 0 <= j < |l| && Less(t, l[j]) }

  lemma {:induction false} AboveCounts(l: Logits, t: Logit)
    ensures |Above(l, t)| == CountAbove(l, t)
  {
    if l != [] {
      var n := |l| - 1;
      AboveCounts(l[..n], t);
      assert Above(l, t) == Above(l[..n], t) + (if Less(t, l[n]) then {n} else {});
    }
  }

  /** An id stays open exactly when fewer than k ids score above it. */
  lemma TopKCounts(l: Logits, k: int, out: Logits, i: nat)
    requires TopK(l, k, out) && i < |l|
    ensures |out| == |l| && out[i] == if 0 < k < |l| && |Above(l, l[i])| >= k then NegInf else l[i]
  {
    hide Less, CountAbove, CountAtLeast, Above;
    AboveCounts(l, l[i]);
    if 0 < k < |l| {
      var t :| KthLargest(l, k, t) && out == Masked(l, t);
      if Less(l[i], t) { CountsOrder(l, l[i], t); } else { AboveOrder(l, t, l[i]); }
    }
  }

  method ApplyTopK(a: array<Logit>, V: nat, k: int)
    requires V == a.Length
    modifies a
    ensures TopK(old(a[..]), k, a[..])
    ensures forall i | 0 <= i < V ::
              a[i] == if 0 < k < V && |Above(old(a[..]), old(a[i]))| >= k then NegInf else old(a[i])
  {
    if 0 < k < V {
      var threshold := NthElement(a[..], k);
      for i := 0 to V
        invariant forall j | 0 <= j < V :: a[j] == if j < i && Less(old(a[j]), threshold) then NegInf else old(a[j])
      {
        if Less(a[i], threshold) { a[i] := NegInf; }
      }
      assert a[..] == Masked(old(a[..]), threshold);
    }
    ghost var was, now := old(a[..]), a[..];
    forall i | 0 <= i < V
      ensures a[i] == if 0 < k < V && |Above(was, was[i])| >= k then NegInf else old(a[i]) {
      TopKCounts(was, k, now, i);
    }
  }

  // ----- softmax --------------------------------------------------------------------------

  function Ex(exp: real -> real, x: real): real { exp(x) }

  /** All that is used of the exponential. */
  ghost predicate ExpOk(exp: real -> real) {
    && (forall x: real :: Ex(exp, x) > 0.0)
    && (forall x: real, y: real | x < y :: Ex(exp, x) < Ex(exp, y))
  }

  function Weight(exp: real -> real, x: Logit, max: real): real {
    if x.NegInf? then 0.0 else Ex(exp, x.v - max)
  }

  /** Unnormalised probabilities. */
  function Weights(exp: real -> real, l: Logits, max: real): (w: seq<real>)
    ensures |w| == |l| && forall i | 0 <= i < |l| :: w[i] == Weight(exp, l[i], max)
  {
    seq(|l|, i requires 0 <= i < |l| => Weight(exp, l[i], max))
  }

  /** Sum of the first n weights. */
  function Mass(w: seq<real>, n: nat): real
    requires n <= |w|
  {
    if n == 0 then 0.0 else Mass(w, n - 1) + w[n - 1]
  }

  predicate NonNegative(w: seq<real>) { forall i | 0 <= i < |w| :: w[i] >= 0.0 }

  lemma {:induction false} MassGrows(w: seq<real>, m: nat, n: nat)
    requires NonNegative(w) && m <= n <= |w|
    ensures Mass(w, m) <= Mass(w, n)
  {
    if m < n { MassGrows(w, m, n - 1); }
  }

  lemma WeightsOpen(exp: real -> real, l: Logits, max: real)
    requires ExpOk(exp)
    ensures NonNegative(Weights(exp, l, max))
    ensures forall i | 0 <= i < |l| :: Weights(exp, l, max)[i] > 0.0 <==> l[i].Fin?
  {
  }

  lemma WholeMass(exp: real -> real, l: Logits, max: real)
    requires ExpOk(exp) && SomeOpen(l)
    ensures Mass(Weights(exp, l, max), |l|) > 0.0
  {
    WeightsOpen(exp, l, max);
    var i :| 0 <= i < |l| && l[i].Fin?;
    OnePositive(Weights(exp, l, max), i);
  }

  lemma OnePositive(w: seq<real>, i: nat)
    requires NonNegative(w) && i < |w| && w[i] > 0.0
    ensures Mass(w, |w|) > 0.0
  {
    MassGrows(w, 0, i);
    MassGrows(w, i + 1, |w|);
  }

  method SumExp(exp: real -> real, a: array<Logit>, V: nat, max: real) returns (sum: real)
    requires V == a.Length
    ensures sum == Mass(Weights(exp, a[..], max), V)
  {
    sum := 0.0;
    for i := 0 to V
      invariant sum == Mass(Weights(exp, a[..], max), i)
    {
      sum := sum + Weight(exp, a[i], max);
    }
  }

  // ----- top-p ----------------------------------------------------------------------------

  const CUTOFF := 16.0

  /** Ids worth sorting: those whose logit is within 16 of the greatest. */
  predicate Candidate(l: Logits, i: nat)
    requires i < |l|
  {
    l[i].Fin? && MaxLogit(l).Fin? && l[i].v >= MaxLogit(l).v - CUTOFF
  }

  function Share(part: real, whole: real): real
    requires whole > 0.0
  {
    part * (1.0 / whole)
  }

  ghost predicate Softmaxable(exp: real -> real, l: Logits) {
    MaxLogit(l).Fin? && Mass(Weights(exp, l, MaxLogit(l).v), |l|) > 0.0
  }

  ghost function Probability(exp: real -> real, l: Logits, i: nat): real
    requires i < |l| && Softmaxable(exp, l)
  {
    Share(Weight(exp, l[i], MaxLogit(l).v), Mass(Weights(exp, l, MaxLogit(l).v), |l|))
  }

  /** The candidates with id below n, each once, with its probability. */
  ghost predicate Listed(exp: real -> real, l: Logits, n: nat, ps: seq<TokenProb>)
    requires n <= |l| && Softmaxable(exp, l)
  {
    && (forall j | 0 <= j < |ps| ::
          ps[j].id < n && Candidate(l, ps[j].id) && ps[j].prob == Probability(exp, l, ps[j].id))
    && (forall i | 0 <= i < n && Candidate(l, i) :: exists j :: 0 <= j < |ps| && ps[j].id == i)
    && (forall j, k | 0 <= j < k < |ps| :: ps[j].id != ps[k].id)
  }

  predicate Descending(ps: seq<TokenProb>) {
    forall j, k | 0 <= j < k < |ps| :: ps[j].prob >= ps[k].prob
  }

  /** Total probability of the first n entries. */
  function Cumulative(ps: seq<TokenProb>, n: nat): real
    requires n <= |ps|
  {
    if n == 0 then 0.0 else Cumulative(ps, n - 1) + ps[n - 1].prob
  }

  /** m entries are the shortest non-empty prefix that reaches p, or everything if nothing does. */
  predicate Nucleus(ps: seq<TokenProb>, p: real, m: nat) {
    && 1 <= m <= |ps|
    && (m == 1 || Cumulative(ps, m - 1) < p)
    && (m == |ps| || Cumulative(ps, m) >= p)
  }

  /** Exactly the ids of the first m entries stay open. */
  ghost predicate KeepsPrefix(l: Logits, ps: seq<TokenProb>, m: nat, out: Logits) {
    && |out| == |l| && m <= |ps|
    && forall i | 0 <= i < |l| ::
         if exists j :: 0 <= j < m && ps[j].id == i then out[i] == l[i] else out[i] == NegInf
  }

  /** Top-p keeps a minimal nucleus of the candidates in some order of falling probability. */
  ghost predicate TopP(exp: real -> real, l: Logits, p: real, out: Logits)
    requires Softmaxable(exp, l)
  {
    if 0.0 < p < 1.0 then
      exists ps: seq<TokenProb>, m: nat ::
        Listed(exp, l, |l|, ps) && Descending(ps) && Nucleus(ps, p, m) && KeepsPrefix(l, ps, m, out)
    else out == l
  }

  /** std::sort by falling probability; which of several equal entries comes first is left open. */
  method SortDescending(ps: seq<TokenProb>) returns (r: seq<TokenProb>)
    ensures Descending(r) && multiset(r) == multiset(ps)
  {
    r := [];
    for i := 0 to |ps|
      invariant Descending(r) && multiset(r) == multiset(ps[..i])
    {
      assert ps[..i + 1] == ps[..i] + [ps[i]];
      r := Insert(r, ps[i]);
    }
    assert ps[..|ps|] == ps;
  }

  method Insert(r: seq<TokenProb>, x: TokenProb) returns (s: seq<TokenProb>)
    requires Descending(r)
    ensures Descending(s) && multiset(s) == multiset(r) + multiset{x}
  {
    var k: nat := |r|;
    while k > 0 && r[k - 1].prob < x.prob
      invariant k <= |r| && forall j | k <= j < |r| :: r[j].prob < x.prob
    {
      k := k - 1;
    }
    s := r[..k] + [x] + r[k..];
    InsertedCounts(r, k, x);
  }

  lemma InsertedCounts(r: seq<TokenProb>, k: nat, x: TokenProb)
    requires k <= |r|
    ensures multiset(r[..k] + [x] + r[k..]) == multiset(r) + multiset{x}
  {
    assert r == r[..k] + r[k..];
  }

  lemma {:induction false} AtMostOnce(ps: seq<TokenProb>, x: TokenProb)
    requires forall j, k | 0 <= j < k < |ps| :: ps[j].id != ps[k].id
    ensures multiset(ps)[x] <= 1
  {
    if ps != [] {
      var n := |ps| - 1;
      assert ps == ps[..n] + [ps[n]];
      AtMostOnce(ps[..n], x);
      if x == ps[n] { assert forall j | 0 <= j < n :: ps[..n][j] != x; }
    }
  }

  lemma TwiceCounts(ps: seq<TokenProb>, j: nat, k: nat)
    requires j < k < |ps| && ps[j] == ps[k]
    ensures multiset(ps)[ps[k]] >= 2
  {
    assert ps == ps[..k] + ([ps[k]] + ps[k + 1..]);
    assert ps[..k][j] == ps[k];
    assert ps[k] in multiset(ps[..k]);
  }

  lemma ListedPermutes(exp: real -> real, l: Logits, ps: seq<TokenProb>, r: seq<TokenProb>)
    requires Softmaxable(exp, l) && Listed(exp, l, |l|, ps) && multiset(r) == multiset(ps)
    ensures Listed(exp, l, |l|, r)
  {
    hide Probability, Candidate, Softmaxable;
    forall j | 0 <= j < |r|
      ensures r[j].id < |l| && Candidate(l, r[j].id) && r[j].prob == Probability(exp, l, r[j].id) {
      assert r[j] in multiset(r);
      assert r[j] in ps;
    }
    forall i | 0 <= i < |l| && Candidate(l, i) ensures exists j :: 0 <= j < |r| && r[j].id == i {
      var j :| 0 <= j < |ps| && ps[j].id == i;
      assert ps[j] in multiset(ps);
      assert ps[j] in r;
    }
    forall j, k | 0 <= j < k < |r| ensures r[j].id != r[k].id {
      if r[j].id == r[k].id {
        TwiceCounts(r, j, k);
        AtMostOnce(ps, r[k]);
      }
    }
  }

  /** The candidates; everything else is masked on the way. */
  method CollectCandidates(exp: real -> real, a: array<Logit>, V: nat, max: real, sum: real, ghost l: Logits)
    returns (ps: seq<TokenProb>)
    requires V == a.Length && a[..] == l && Softmaxable(exp, l) && MaxLogit(l) == Fin(max)
    requires sum == Mass(Weights(exp, l, max), V) > 0.0
    modifies a
    ensures Listed(exp, l, V, ps)
    ensures forall i | 0 <= i < V :: a[i] == if Candidate(l, i) then l[i] else NegInf
  {
    hide *;
    var cutoff := max - CUTOFF;
    ps := [];
    ListedNone(exp, l);
    for i := 0 to V
      invariant Listed(exp, l, i, ps)
      invariant forall j | 0 <= j < V :: a[j] == if j < i && !Candidate(l, j) then NegInf else l[j]
    {
      CandidateTest(l, i, cutoff);
      if !Less(a[i], Fin(cutoff)) {
        ListedGrows(exp, l, i, ps, max, sum);
        ps := ps + [TokenProb(i, Share(Ex(exp, a[i].v - max), sum))];
      } else {
        ListedSkips(exp, l, i, ps);
        a[i] := NegInf;
      }
    }
  }

  lemma CandidateTest(l: Logits, i: nat, cutoff: real)
    requires i < |l| && MaxLogit(l) == Fin(cutoff + CUTOFF)
    ensures Candidate(l, i) <==> !Less(l[i], Fin(cutoff))
    ensures Candidate(l, i) ==> l[i].Fin?
  {
  }

  lemma ListedNone(exp: real -> real, l: Logits)
    requires Softmaxable(exp, l)
    ensures Listed(exp, l, 0, [])
  {
  }

  lemma ListedSkips(exp: real -> real, l: Logits, i: nat, ps: seq<TokenProb>)
    requires Softmaxable(exp, l) && i < |l| && Listed(exp, l, i, ps) && !Candidate(l, i)
    ensures Listed(exp, l, i + 1, ps)
  {
    hide Softmaxable, Probability, Candidate;
  }

  lemma CandidateProbability(exp: real -> real, l: Logits, i: nat)
    requires Softmaxable(exp, l) && i < |l| && l[i].Fin?
    ensures Probability(exp, l, i)
         == Share(Ex(exp, l[i].v - MaxLogit(l).v), Mass(Weights(exp, l, MaxLogit(l).v), |l|))
  {
    hide Share, Mass, MaxLogit;
  }

  lemma {:induction false} ListedGrows(exp: real -> real, l: Logits, i: nat, ps: seq<TokenProb>, max: real, sum: real)
    requires Softmaxable(exp, l) && i < |l| && Listed(exp, l, i, ps) && Candidate(l, i)
    requires MaxLogit(l) == Fin(max) && sum == Mass(Weights(exp, l, max), |l|) > 0.0
    ensures l[i].Fin?
    ensures Listed(exp, l, i + 1, ps + [TokenProb(i, Share(Ex(exp, l[i].v - max), sum))])
  {
    CandidateProbability(exp, l, i);
    hide Listed, Probability, Share, Mass, MaxLogit, Weights, Softmaxable;
    ListedSnoc(exp, l, i, ps, TokenProb(i, Share(Ex(exp, l[i].v - max), sum)));
  }

  lemma ListedSnoc(exp: real -> real, l: Logits, i: nat, ps: seq<TokenProb>, q: TokenProb)
    requires Softmaxable(exp, l) && i < |l| && Listed(exp, l, i, ps) && Candidate(l, i)
    requires q.id == i && q.prob == Probability(exp, l, i)
    ensures Listed(exp, l, i + 1, ps + [q])
  {
    hide Softmaxable, Probability, Candidate;
    var grown := ps + [q];
    forall k | 0 <= k < i + 1 && Candidate(l, k) ensures exists j :: 0 <= j < |grown| && grown[j].id == k {
      if k == i {
        assert grown[|ps|].id == k;
      } else {
        var j :| 0 <= j < |ps| && ps[j].id == k;
        assert grown[j].id == k;
      }
    }
  }

  predicate AllNonNegative(ps: seq<TokenProb>) { forall j | 0 <= j < |ps| :: ps[j].prob >= 0.0 }

  lemma {:induction false} CumulativeGrows(ps: seq<TokenProb>, m: nat, n: nat)
    requires AllNonNegative(ps) && m <= n <= |ps|
    ensures Cumulative(ps, m) <= Cumulative(ps, n)
  {
    if m < n { CumulativeGrows(ps, m, n - 1); }
  }

  /** Masks every sorted entry the running sum reached p before; the first one always stays. */
  method MaskTail(a: array<Logit>, ps: seq<TokenProb>, p: real) returns (ghost m: nat)
    requires ps != [] && AllNonNegative(ps)
    requires forall j | 0 <= j < |ps| :: ps[j].id < a.Length
    requires forall j, k | 0 <= j < k < |ps| :: ps[j].id != ps[k].id
    modifies a
    ensures Nucleus(ps, p, m)
    ensures forall j | 0 <= j < |ps| :: a[ps[j].id] == if j < m then old(a[ps[j].id]) else NegInf
    ensures forall i | 0 <= i < a.Length && (forall j | 0 <= j < |ps| :: ps[j].id != i) :: a[i] == old(a[i])
  {
    hide Cumulative;
    var cum := 0.0;
    m := 0;
    CumulativeNone(ps);
    for i := 0 to |ps|
      invariant cum == Cumulative(ps, i) && m <= i && (i > 0 ==> m > 0)
      invariant m == i || Cumulative(ps, m) >= p
      invariant m <= 1 || Cumulative(ps, m - 1) < p
      invariant forall j | 0 <= j < |ps| :: a[ps[j].id] == if j < m || i <= j then old(a[ps[j].id]) else NegInf
      invariant forall k | 0 <= k < a.Length && (forall j | 0 <= j < |ps| :: ps[j].id != k) :: a[k] == old(a[k])
    {
      if i > 0 && cum >= p {
        a[ps[i].id] := NegInf;
      } else {
        CumulativeGrows(ps, m, i);
        m := i + 1;
      }
      CumulativeStep(ps, i);
      cum := cum + ps[i].prob;
    }
  }

  lemma CumulativeNone(ps: seq<TokenProb>)
    ensures Cumulative(ps, 0) == 0.0
  {
  }

  lemma CumulativeStep(ps: seq<TokenProb>, n: nat)
    requires n < |ps|
    ensures Cumulative(ps, n + 1) == Cumulative(ps, n) + ps[n].prob
  {
  }

  lemma ListedIsOpen(exp: real -> real, l: Logits, ps: seq<TokenProb>)
    requires ExpOk(exp) && Softmaxable(exp, l) && Listed(exp, l, |l|, ps)
    ensures ps != [] && AllNonNegative(ps)
  {
    hide Mass;
    var top :| 0 <= top < |l| && l[top] == MaxLogit(l);
    assert Candidate(l, top);
    forall j | 0 <= j < |ps| ensures ps[j].prob >= 0.0 {
      ShareOk(Weight(exp, l[ps[j].id], MaxLogit(l).v), Mass(Weights(exp, l, MaxLogit(l).v), |l|));
    }
  }

  lemma ShareOk(part: real, whole: real)
    requires whole > 0.0 && part >= 0.0
    ensures Share(part, whole) >= 0.0
  {
    assert 1.0 / whole > 0.0;
  }

  lemma OpenIsSoftmaxable(exp: real -> real, l: Logits)
    requires ExpOk(exp) && SomeOpen(l)
    ensures Softmaxable(exp, l)
  {
    hide Mass, Weights;
    var i :| 0 <= i < |l| && l[i].Fin?;
    assert !Less(MaxLogit(l), l[i]);
    WholeMass(exp, l, MaxLogit(l).v);
  }

  lemma TailMasked(exp: real -> real, l: Logits, ps: seq<TokenProb>, m: nat, mid: Logits, out: Logits)
    requires Softmaxable(exp, l) && Listed(exp, l, |l|, ps) && m <= |ps| && |mid| == |out| == |l|
    requires forall i | 0 <= i < |l| :: mid[i] == if Candidate(l, i) then l[i] else NegInf
    requires forall j | 0 <= j < |ps| :: ps[j].id < |l| && out[ps[j].id] == if j < m then mid[ps[j].id] else NegInf
    requires forall i | 0 <= i < |l| && (forall j | 0 <= j < |ps| :: ps[j].id != i) :: out[i] == mid[i]
    ensures KeepsPrefix(l, ps, m, out)
  {
    hide Softmaxable, Probability, Candidate;
    forall i | 0 <= i < |l|
      ensures if exists j :: 0 <= j < m && ps[j].id == i then out[i] == l[i] else out[i] == NegInf {
      if j :| 0 <= j < |ps| && ps[j].id == i { assert Candidate(l, ps[j].id); }
    }
  }

  lemma IsTopP(exp: real -> real, l: Logits, p: real, ps: seq<TokenProb>, m: nat, out: Logits)
    requires Softmaxable(exp, l) && 0.0 < p < 1.0
    requires Listed(exp, l, |l|, ps) && Descending(ps) && Nucleus(ps, p, m) && KeepsPrefix(l, ps, m, out)
    ensures TopP(exp, l, p, out)
  {
    hide Softmaxable, Listed, Descending, Nucleus, KeepsPrefix;
  }

  lemma NoTopP(exp: real -> real, l: Logits, p: real)
    requires Softmaxable(exp, l) && !(0.0 < p < 1.0)
    ensures TopP(exp, l, p, l)
  {
    hide Softmaxable;
  }

  lemma ListedIds(exp: real -> real, l: Logits, ps: seq<TokenProb>)
    requires Softmaxable(exp, l) && Listed(exp, l, |l|, ps)
    ensures forall j | 0 <= j < |ps| :: ps[j].id < |l|
    ensures forall j, k | 0 <= j < k < |ps| :: ps[j].id != ps[k].id
  {
    hide Softmaxable, Probability, Candidate;
  }

  method ApplyTopP(exp: real -> real, a: array<Logit>, V: nat, p: real)
    requires V == a.Length && ExpOk(exp) && SomeOpen(a[..])
    modifies a
    ensures Softmaxable(exp, old(a[..])) && TopP(exp, old(a[..]), p, a[..])
    ensures !(0.0 < p < 1.0) ==> a[..] == old(a[..])
  {
    hide *;
    ghost var l := a[..];
    OpenIsSoftmaxable(exp, l);
    if 0.0 < p < 1.0 {
      var max := FindMax(a, V);
      OpenMax(l);
      MaxIsOpen(exp, l);
      var sum := SumExp(exp, a, V, max.v);
      var found := CollectCandidates(exp, a, V, max.v, sum, l);
      var ps := SortDescending(found);
      ListedPermutes(exp, l, found, ps);
      ListedIsOpen(exp, l, ps);
      ListedIds(exp, l, ps);
      ghost var mid := a[..];
      if |ps| > 0 {
        ghost var m := MaskTail(a, ps, p);
        NucleusParts(ps, p, m);
        TailMasked(exp, l, ps, m, mid, a[..]);
        IsTopP(exp, l, p, ps, m, a[..]);
      }
    } else {
      NoTopP(exp, l, p);
    }
  }

  lemma NucleusParts(ps: seq<TokenProb>, p: real, m: nat)
    requires Nucleus(ps, p, m)
    ensures 1 <= m <= |ps|
  {
  }

  lemma OpenMax(l: Logits)
    requires SomeOpen(l)
    ensures MaxLogit(l).Fin?
  {
    var i :| 0 <= i < |l| && l[i].Fin?;
    assert !Less(MaxLogit(l), l[i]);
  }

  // ----- the draw -------------------------------------------------------------------------

  /** u as a share of the whole mass. */
  function Level(u: real, whole: real): real { u * whole }

  /** The least id whose running mass reaches the level. */
  predicate Drawn(w: seq<real>, u: real, id: nat) {
    && id < |w| && Mass(w, id + 1) >= Level(u, Mass(w, |w|))
    && forall n: nat | n <= id :: Mass(w, n) < Level(u, Mass(w, |w|))
  }

  /** Id i is drawn exactly for the u in an interval of length w[i] over the whole mass, so with its
      softmax probability; an id without weight is never drawn. */
  lemma {:induction false} DrawInterval(w: seq<real>, u: real, id: nat)
    requires NonNegative(w) && id < |w|
    ensures Drawn(w, u, id) <==> Mass(w, id) < Level(u, Mass(w, |w|)) <= Mass(w, id) + w[id]
  {
    hide Level;
    if Mass(w, id) < Level(u, Mass(w, |w|)) {
      forall n: nat | n <= id ensures Mass(w, n) < Level(u, Mass(w, |w|)) {
        MassGrows(w, n, id);
      }
    }
  }

  lemma LevelInside(u: real, whole: real)
    requires 0.0 < u < 1.0 && whole > 0.0
    ensures 0.0 < Level(u, whole) < whole
  {
    hide Level;
    LevelFacts(u, 1.0 - u, whole);
    LevelFacts(1.0 - u, u, whole);
  }

  lemma LevelFacts(a: real, b: real, whole: real)
    ensures Level(a, whole) + Level(b, whole) == Level(a + b, whole) && Level(1.0, whole) == whole
    ensures a > 0.0 && whole > 0.0 ==> Level(a, whole) > 0.0
  {
    if a > 0.0 && whole > 0.0 { Positive(a, whole); }
  }

  lemma Positive(a: real, b: real)
    requires a > 0.0 && b > 0.0
    ensures a * b > 0.0
  {
  }

  /** The accumulate-and-compare loop. Its fallback, the last id, is never needed. */
  method Accumulate(a: array<Logit>, V: nat, u: real, sum: real, ghost w: seq<real>) returns (id: nat)
    requires V == a.Length == |w| > 0 && sum == Mass(w, V) > 0.0 && 0.0 < u < 1.0
    requires forall i | 0 <= i < V :: a[i] == Fin(w[i])
    ensures Drawn(w, u, id)
  {
    hide Level;
    LevelInside(u, sum);
    var r := Level(u, sum);
    var acc := 0.0;
    id := V - 1;
    for i := 0 to V
      invariant acc == Mass(w, i) && id == V - 1
      invariant forall n: nat | n <= i :: Mass(w, n) < r
    {
      acc := acc + a[i].v;
      if acc >= r {
        id := i;
        break;
      }
    }
  }

  /** The exponentials replace the logits in place. */
  method Exponentiate(exp: real -> real, a: array<Logit>, V: nat, max: real) returns (sum: real)
    requires V == a.Length
    modifies a
    ensures sum == Mass(Weights(exp, old(a[..]), max), V)
    ensures forall i | 0 <= i < V :: a[i] == Fin(Weights(exp, old(a[..]), max)[i])
  {
    ghost var w := Weights(exp, a[..], max);
    sum := 0.0;
    for i := 0 to V
      invariant sum == Mass(w, i)
      invariant forall j | 0 <= j < V :: a[j] == if j < i then Fin(w[j]) else old(a[j])
    {
      var e := Weight(exp, a[i], max);
      a[i] := Fin(e);
      sum := sum + e;
    }
  }

  // ----- the whole sampler ----------------------------------------------------------------

  /** The distribution the draw sees: penalty, temperature, top-k, top-p. */
  ghost predicate Filtered(exp: real -> real, l: Logits, temperature: real, k: int, p: real, penalty: real,
                           history: seq<int>, mid: Logits, out: Logits)
    requires temperature > 0.0 && penalty > 0.0
  {
    && TopK(Scaled(Penalized(l, history, penalty), temperature), k, mid)
    && Softmaxable(exp, mid) && TopP(exp, mid, p, out)
  }

  /** What the stochastic path may return for the uniform number u. */
  ghost predicate Sampled(exp: real -> real, l: Logits, temperature: real, k: int, p: real, penalty: real,
                          history: seq<int>, u: real, id: nat)
    requires temperature > 0.0 && penalty > 0.0
  {
    exists mid: Logits, out: Logits ::
      && Filtered(exp, l, temperature, k, p, penalty, history, mid, out)
      && Drawn(Weights(exp, out, MaxValue(out)), u, id)
  }

  function MaxValue(l: Logits): real { if MaxLogit(l).Fin? then MaxLogit(l).v else 0.0 }

  /** sample_top_k_p. */
  method SampleTopKP(exp: real -> real, a: array<Logit>, V: nat, temperature: real, k: int, p: real, penalty: real,
                     history: seq<int>, seed: int, subseq: int) returns (id: nat)
    requires V == a.Length > 0 && ExpOk(exp) && penalty > 0.0
    requires temperature > 0.0 ==> SomeOpen(a[..])
    requires -0x8000_0000_0000_0000 <= seed < 0x8000_0000_0000_0000
    requires -0x8000_0000_0000_0000 <= subseq < 0x7FFF_FFFF_FFFF_FFFF
    modifies a
    ensures temperature <= 0.0 ==> FirstMax(old(a[..]), id) && a[..] == old(a[..])
    ensures temperature > 0.0 ==>
              Sampled(exp, old(a[..]), temperature, k, p, penalty, history,
                      Philox.Uniform(Philox.DrawBlock(seed, subseq, 0)), id)
  {
    hide Softmaxable, Mass, TopK, TopP, Drawn, Weights, Scaled, Penalized, MaxLogit, SomeOpen, ExpOk, Sampled,
         Philox.DrawBlock, Philox.Uniform;
    if temperature <= 0.0 {
      id := ArgMax(a, V);
      return;
    }
    ghost var l := a[..];
    ApplyRepetitionPenalty(a, V, history, penalty);
    ApplyTemperature(a, V, temperature);
    PreparedOpen(l, history, penalty, temperature);
    ghost var start := a[..];
    ApplyTopK(a, V, k);
    ghost var mid := a[..];
    TopKOpen(start, k, mid);
    ApplyTopP(exp, a, V, p);
    ghost var out := a[..];
    TopPOpen(exp, mid, p, out);
    OpenIsSoftmaxable(exp, out);
    OpenMaxValue(exp, out);
    var max := FindMax(a, V);
    var sum := Exponentiate(exp, a, V, max.v);
    var u := new real[1](_ => 0.0);
    Philox.UniformFill(seed, subseq, 0, u, 1);
    id := Accumulate(a, V, u[0], sum, Weights(exp, out, MaxValue(out)));
    FromStages(exp, l, temperature, k, p, penalty, history, mid, out, u[0], id);
  }

  lemma FromStages(exp: real -> real, l: Logits, temperature: real, k: int, p: real, penalty: real,
                   history: seq<int>, mid: Logits, out: Logits, u: real, id: nat)
    requires temperature > 0.0 && penalty > 0.0
    requires TopK(Scaled(Penalized(l, history, penalty), temperature), k, mid)
    requires Softmaxable(exp, mid) && TopP(exp, mid, p, out)
    requires Drawn(Weights(exp, out, MaxValue(out)), u, id)
    ensures Sampled(exp, l, temperature, k, p, penalty, history, u, id)
  {
    hide TopK, TopP, Softmaxable, Drawn, Scaled, Penalized;
    assert Filtered(exp, l, temperature, k, p, penalty, history, mid, out);
  }

  lemma {:induction false} OpenMaxValue(exp: real -> real, l: Logits)
    requires ExpOk(exp) && SomeOpen(l)
    ensures MaxLogit(l) == Fin(MaxValue(l)) && Mass(Weights(exp, l, MaxValue(l)), |l|) > 0.0
  {
    hide Mass, Weights;
    OpenMax(l);
    WholeMass(exp, l, MaxValue(l));
  }

  lemma PreparedOpen(l: Logits, history: seq<int>, penalty: real, temperature: real)
    requires SomeOpen(l) && penalty > 0.0 && temperature > 0.0
    ensures SomeOpen(Scaled(Penalized(l, history, penalty), temperature))
    ensures forall i | 0 <= i < |l| :: Scaled(Penalized(l, history, penalty), temperature)[i].Fin? <==> l[i].Fin?
  {
    var i :| 0 <= i < |l| && l[i].Fin?;
    assert Scaled(Penalized(l, history, penalty), temperature)[i].Fin?;
  }

  /** Top-k never masks the greatest logit. */
  lemma TopKOpen(l: Logits, k: int, out: Logits)
    requires SomeOpen(l) && TopK(l, k, out)
    ensures SomeOpen(out) && |out| == |l| && forall i | 0 <= i < |l| :: out[i] == l[i] || out[i] == NegInf
  {
    OpenMax(l);
    var top :| 0 <= top < |l| && l[top] == MaxLogit(l);
    if 0 < k < |l| {
      var t :| KthLargest(l, k, t) && out == Masked(l, t);
      assert !Less(l[top], t);
    }
    assert out[top].Fin?;
  }

  /** Neither does top-p. */
  lemma TopPOpen(exp: real -> real, l: Logits, p: real, out: Logits)
    requires ExpOk(exp) && SomeOpen(l) && Softmaxable(exp, l) && TopP(exp, l, p, out)
    ensures SomeOpen(out) && |out| == |l| && forall i | 0 <= i < |l| :: out[i] == l[i] || out[i] == NegInf
  {
    hide Mass, Probability, Softmaxable;
    if 0.0 < p < 1.0 {
      var ps: seq<TokenProb>, m: nat :|
        Listed(exp, l, |l|, ps) && Descending(ps) && Nucleus(ps, p, m) && KeepsPrefix(l, ps, m, out);
      var first := ps[0].id;
      assert Candidate(l, first);
      assert out[first].Fin?;
    }
  }

  // ----- what the sampler guarantees ------------------------------------------------------

  lemma TopKCount(l: Logits, k: int, out: Logits, id: nat)
    requires TopK(l, k, out) && id < |out| && out[id].Fin?
    ensures id < |l| && out[id] == l[id]
    ensures 0 < k < |l| ==> CountAbove(l, l[id]) < k
  {
    if 0 < k < |l| {
      var t :| KthLargest(l, k, t) && out == Masked(l, t);
      AboveOrder(l, t, l[id]);
    }
  }

  lemma {:induction false} AboveOrder(l: Logits, s: Logit, t: Logit)
    requires !Less(t, s)
    ensures CountAbove(l, t) <= CountAbove(l, s)
  {
    if l != [] { AboveOrder(l[..|l| - 1], s, t); }
  }

  /** The id returned was not masked on entry, and with top-k active fewer than k ids had a higher
      score. */
  lemma SampledIsOpen(exp: real -> real, l: Logits, temperature: real, k: int, p: real, penalty: real,
                      history: seq<int>, u: real, id: nat)
    requires temperature > 0.0 && penalty > 0.0 && ExpOk(exp) && SomeOpen(l)
    requires Sampled(exp, l, temperature, k, p, penalty, history, u, id)
    ensures id < |l| && l[id].Fin?
    ensures var start := Scaled(Penalized(l, history, penalty), temperature);
            0 < k < |l| ==> CountAbove(start, start[id]) < k
  {
    hide Mass, TopK, TopP, Softmaxable, Scaled, Penalized, Level, MaxLogit;
    var start := Scaled(Penalized(l, history, penalty), temperature);
    var mid, out :| Filtered(exp, l, temperature, k, p, penalty, history, mid, out)
                    && Drawn(Weights(exp, out, MaxValue(out)), u, id);
    PreparedOpen(l, history, penalty, temperature);
    TopKOpen(start, k, mid);
    TopPOpen(exp, mid, p, out);
    DrawnHasWeight(Weights(exp, out, MaxValue(out)), u, id);
    WeightsOpen(exp, out, MaxValue(out));
    TopKCount(start, k, mid, id);
  }

  lemma DrawnHasWeight(w: seq<real>, u: real, id: nat)
    requires Drawn(w, u, id)
    ensures w[id] > 0.0
  {
    hide Level;
    assert Mass(w, id) < Level(u, Mass(w, |w|));
  }

  /** The talker's codebook 0: with the reserved range suppressed, no sampled code lies in it except
      the end-of-speech code; greedy decoding keeps the same promise. */
  lemma SuppressedNeverSampled(exp: real -> real, l: Logits, lo: int, hi: int, keep: int, temperature: real, k: int,
                               p: real, penalty: real, history: seq<int>, u: real, id: nat)
    requires ExpOk(exp) && SomeOpen(Suppressed(l, lo, hi, keep)) && penalty > 0.0
    requires if temperature > 0.0 then
               Sampled(exp, Suppressed(l, lo, hi, keep), temperature, k, p, penalty, history, u, id)
             else FirstMax(Suppressed(l, lo, hi, keep), id)
    ensures id < |l| && l[id].Fin? && (id < lo || hi <= id || id == keep)
  {
    if temperature > 0.0 {
      SampledIsOpen(exp, Suppressed(l, lo, hi, keep), temperature, k, p, penalty, history, u, id);
    } else {
      var i :| 0 <= i < |l| && Suppressed(l, lo, hi, keep)[i].Fin?;
      assert !Less(Suppressed(l, lo, hi, keep)[id], Suppressed(l, lo, hi, keep)[i]);
    }
  }

  lemma ShareOrder(a: real, b: real, whole: real)
    requires whole > 0.0 && a < b
    ensures Share(a, whole) < Share(b, whole)
  {
    var f := 1.0 / whole;
    assert f > 0.0;
    Positive(b - a, f);
    assert (b - a) * f == b * f - a * f;
  }

  /** Whatever top-p masks scored no higher than anything it keeps. */
  lemma TopPKeepsBest(exp: real -> real, l: Logits, p: real, out: Logits, i: nat, j: nat)
    requires ExpOk(exp) && Softmaxable(exp, l) && TopP(exp, l, p, out)
    requires |out| == |l| && i < |l| && j < |l| && out[i].Fin? && out[j].NegInf?
    ensures !Less(l[i], l[j])
  {
    hide Mass, Weights, MaxLogit, Softmaxable, Share, ExpOk, Candidate, Nucleus, Descending, Probability;
    if 0.0 < p < 1.0 && l[j].Fin? {
      var ps: seq<TokenProb>, m: nat :|
        Listed(exp, l, |l|, ps) && Descending(ps) && Nucleus(ps, p, m) && KeepsPrefix(l, ps, m, out);
      var a :| 0 <= a < m && ps[a].id == i;
      if Candidate(l, j) {
        var b :| 0 <= b < |ps| && ps[b].id == j;
        ProbabilityOrder(exp, l, ps, a, b);
      } else {
        CandidatesBeatRest(l, i, j);
      }
    }
  }

  lemma CandidatesBeatRest(l: Logits, i: nat, j: nat)
    requires i < |l| && j < |l| && Candidate(l, i) && !Candidate(l, j)
    ensures !Less(l[i], l[j])
  {
  }

  lemma ProbabilityOrder(exp: real -> real, l: Logits, ps: seq<TokenProb>, a: nat, b: nat)
    requires ExpOk(exp) && Softmaxable(exp, l) && Listed(exp, l, |l|, ps) && Descending(ps) && a <= b < |ps|
    ensures !Less(l[ps[a].id], l[ps[b].id])
  {
    hide Mass, Weights, MaxLogit, Softmaxable, Share;
    var i, j := ps[a].id, ps[b].id;
    MaxIsOpen(exp, l);
    CandidateProbability(exp, l, i);
    CandidateProbability(exp, l, j);
    var max := MaxLogit(l).v;
    if Less(l[i], l[j]) {
      assert ps[a].prob >= ps[b].prob;
      assert Ex(exp, l[i].v - max) < Ex(exp, l[j].v - max);
      ShareOrder(Ex(exp, l[i].v - max), Ex(exp, l[j].v - max), Mass(Weights(exp, l, max), |l|));
    }
  }

  lemma MaxIsOpen(exp: real -> real, l: Logits)
    requires Softmaxable(exp, l)
    ensures MaxLogit(l).Fin? && Mass(Weights(exp, l, MaxLogit(l).v), |l|) > 0.0
  {
  }

  // ----- top-p without its sorted list ----------------------------------------------------

  lemma {:induction false} MassUpdate(w: seq<real>, i: nat, x: real, n: nat)
    requires i < |w| && n <= |w|
    ensures Mass(w[i := x], n) == Mass(w, n) + (if i < n then x - w[i] else 0.0)
    decreases n
  {
    if n > 0 { MassUpdate(w, i, x, n - 1); }
  }

  lemma {:induction false} MassNothing(w: seq<real>, n: nat)
    requires n <= |w| && forall i | 0 <= i < |w| :: w[i] == 0.0
    ensures Mass(w, n) == 0.0
  {
    if n > 0 { MassNothing(w, n - 1); }
  }

  /** Unnormalised probability of everything open. */
  function OpenMass(exp: real -> real, l: Logits, max: real): real { Mass(Weights(exp, l, max), |l|) }

  /** Opening or closing one id changes the mass by its weight. */
  lemma OpenMassUpdate(exp: real -> real, l: Logits, max: real, i: nat, x: Logit)
    requires i < |l|
    ensures OpenMass(exp, l[i := x], max) == OpenMass(exp, l, max) - Weight(exp, l[i], max) + Weight(exp, x, max)
  {
    hide Weight;
    assert Weights(exp, l[i := x], max) == Weights(exp, l, max)[i := Weight(exp, x, max)];
    MassUpdate(Weights(exp, l, max), i, Weight(exp, x, max), |l|);
  }

  ghost predicate IdsApart(l: Logits, ps: seq<TokenProb>) {
    && (forall j | 0 <= j < |ps| :: ps[j].id < |l|)
    && (forall j, k | 0 <= j < k < |ps| :: ps[j].id != ps[k].id)
  }

  /** The first m entries, opened one after the other. */
  function OpenFirst(l: Logits, ps: seq<TokenProb>, m: nat): (r: Logits)
    requires m <= |ps| && forall j | 0 <= j < |ps| :: ps[j].id < |l|
    ensures |r| == |l|
  {
    if m == 0 then seq(|l|, _ => NegInf) else OpenFirst(l, ps, m - 1)[ps[m - 1].id := l[ps[m - 1].id]]
  }

  lemma {:induction false} OpenFirstKeeps(l: Logits, ps: seq<TokenProb>, m: nat)
    requires m <= |ps| && IdsApart(l, ps)
    ensures KeepsPrefix(l, ps, m, OpenFirst(l, ps, m))
    ensures forall j | m <= j < |ps| :: OpenFirst(l, ps, m)[ps[j].id] == NegInf
  {
    if m > 0 {
      OpenFirstKeeps(l, ps, m - 1);
      var was, out := OpenFirst(l, ps, m - 1), OpenFirst(l, ps, m);
      forall i | 0 <= i < |l|
        ensures if exists j :: 0 <= j < m && ps[j].id == i then out[i] == l[i] else out[i] == NegInf {
        if ps[m - 1].id != i { assert out[i] == was[i]; }
      }
    }
  }

  lemma OpenFirstStep(l: Logits, ps: seq<TokenProb>, m: nat)
    requires m < |ps| && IdsApart(l, ps)
    ensures ps[m].id < |l| && OpenFirst(l, ps, m + 1) == OpenFirst(l, ps, m)[ps[m].id := l[ps[m].id]]
  {
  }

  lemma ListedApart(exp: real -> real, l: Logits, ps: seq<TokenProb>)
    requires Softmaxable(exp, l) && Listed(exp, l, |l|, ps)
    ensures IdsApart(l, ps) && forall j | 0 <= j < |ps| :: ps[j].id < |l|
    ensures forall j | 0 <= j < |ps| :: ps[j].prob == Probability(exp, l, ps[j].id)
  {
    hide Softmaxable, Probability, Candidate;
  }

  lemma {:induction false} CumulativeIsMass(exp: real -> real, l: Logits, ps: seq<TokenProb>, m: nat)
    requires Softmaxable(exp, l) && Listed(exp, l, |l|, ps) && m <= |ps|
    requires IdsApart(l, ps) && forall j | 0 <= j < |ps| :: ps[j].id < |l|
    requires MaxLogit(l).Fin? && OpenMass(exp, l, MaxLogit(l).v) > 0.0
    ensures Cumulative(ps, m) == Share(OpenMass(exp, OpenFirst(l, ps, m), MaxLogit(l).v), OpenMass(exp, l, MaxLogit(l).v))
    decreases m
  {
    hide *;
    var max, whole := MaxLogit(l).v, OpenMass(exp, l, MaxLogit(l).v);
    if m > 0 {
      CumulativeIsMass(exp, l, ps, m - 1);
      ListedApart(exp, l, ps);
      var id, was := ps[m - 1].id, OpenFirst(l, ps, m - 1);
      OpenFirstKeeps(l, ps, m - 1);
      OpenFirstStep(l, ps, m - 1);
      OpenMassUpdate(exp, was, max, id, l[id]);
      NoWeight(exp, max);
      ShareAdds(OpenMass(exp, was, max), Weight(exp, l[id], max), whole);
      ProbabilityIs(exp, l, id);
      CumulativeStep(ps, m - 1);
    } else {
      CumulativeNone(ps);
      OpenFirstNone(l, ps);
      NothingOpen(exp, |l|, max);
      ShareNone(whole);
    }
  }

  lemma OpenFirstNone(l: Logits, ps: seq<TokenProb>)
    requires forall j | 0 <= j < |ps| :: ps[j].id < |l|
    ensures OpenFirst(l, ps, 0) == seq(|l|, _ => NegInf)
  {
  }

  lemma NoWeight(exp: real -> real, max: real)
    ensures Weight(exp, NegInf, max) == 0.0
  {
  }

  lemma ProbabilityIs(exp: real -> real, l: Logits, i: nat)
    requires Softmaxable(exp, l) && i < |l|
    ensures MaxLogit(l).Fin? && OpenMass(exp, l, MaxLogit(l).v) > 0.0
    ensures Probability(exp, l, i) == Share(Weight(exp, l[i], MaxLogit(l).v), OpenMass(exp, l, MaxLogit(l).v))
  {
  }

  lemma NothingOpen(exp: real -> real, n: nat, max: real)
    ensures OpenMass(exp, seq(n, _ => NegInf), max) == 0.0
  {
    MassNothing(Weights(exp, seq(n, _ => NegInf), max), n);
  }

  lemma ShareNone(whole: real)
    requires whole > 0.0
    ensures Share(0.0, whole) == 0.0
  {
  }

  lemma ShareAdds(a: real, b: real, whole: real)
    requires whole > 0.0
    ensures Share(a + b, whole) == Share(a, whole) + Share(b, whole)
  {
  }

  lemma ShareBound(a: real, p: real, whole: real)
    requires whole > 0.0
    ensures Share(a, whole) >= p <==> a >= Level(p, whole)
  {
    var f := 1.0 / whole;
    assert f > 0.0 && f * whole == 1.0;
    UndoFactor(a, f, whole);
    var d := a * f - p;
    assert d * whole == a - p * whole;
    if d >= 0.0 { if d > 0.0 { Positive(d, whole); } } else { Positive(-d, whole); }
  }

  /** Nothing is kept that scores more than 16 below the greatest. */
  lemma TopPKeepsNear(exp: real -> real, l: Logits, p: real, out: Logits, i: nat, j: nat)
    requires Softmaxable(exp, l) && TopP(exp, l, p, out) && 0.0 < p < 1.0
    requires i < |l| == |out| && j < |l| && out[i].Fin? && l[j].Fin?
    ensures out[i] == l[i] && l[i].v >= l[j].v - 16.0
  {
    hide Mass, Weights, Softmaxable, Probability;
    var ps: seq<TokenProb>, m: nat :|
      Listed(exp, l, |l|, ps) && Descending(ps) && Nucleus(ps, p, m) && KeepsPrefix(l, ps, m, out);
    var a :| 0 <= a < m && ps[a].id == i;
    assert Candidate(l, ps[a].id) && !Less(MaxLogit(l), l[j]);
  }

  /** Some sorted list and the open ids, side by side: the list's first m entries carry the share of
      what is open. */
  lemma TopPMass(exp: real -> real, l: Logits, out: Logits, ps: seq<TokenProb>, m: nat)
    requires Softmaxable(exp, l) && Listed(exp, l, |l|, ps) && KeepsPrefix(l, ps, m, out) && m <= |ps| && |out| == |l|
    ensures MaxLogit(l).Fin? && OpenMass(exp, l, MaxLogit(l).v) > 0.0
    ensures Cumulative(ps, m) == Share(OpenMass(exp, out, MaxLogit(l).v), OpenMass(exp, l, MaxLogit(l).v))
  {
    hide *;
    ListedApart(exp, l, ps);
    MassIsPositive(exp, l);
    CumulativeIsMass(exp, l, ps, m);
    OpenFirstKeeps(l, ps, m);
    KeepsPrefixUnique(l, ps, m, out, OpenFirst(l, ps, m));
  }

  lemma MassIsPositive(exp: real -> real, l: Logits)
    requires Softmaxable(exp, l)
    ensures MaxLogit(l).Fin? && OpenMass(exp, l, MaxLogit(l).v) > 0.0
  {
  }

  lemma KeepsPrefixUnique(l: Logits, ps: seq<TokenProb>, m: nat, a: Logits, b: Logits)
    requires KeepsPrefix(l, ps, m, a) && KeepsPrefix(l, ps, m, b)
    ensures a == b
  {
    assert |a| == |b|;
    forall i | 0 <= i < |l| ensures a[i] == b[i] { }
  }

  /** The kept ids carry the share p of the whole, or every id within 16 of the greatest is kept. */
  lemma TopPKeepsEnough(exp: real -> real, l: Logits, p: real, out: Logits, j: nat)
    requires Softmaxable(exp, l) && TopP(exp, l, p, out) && 0.0 < p < 1.0 && j < |l| == |out|
    requires l[j].Fin? && forall i | 0 <= i < |l| && l[i].Fin? :: l[j].v >= l[i].v - 16.0
    ensures MaxLogit(l).Fin?
    ensures out[j] == l[j] || OpenMass(exp, out, MaxLogit(l).v) >= Level(p, OpenMass(exp, l, MaxLogit(l).v))
  {
    MassIsPositive(exp, l);
    hide Mass, Weights, Softmaxable, Probability, OpenMass, MaxLogit, Share, Level, Candidate, Cumulative;
    NearIsCandidate(l, j);
    var ps: seq<TokenProb>, m: nat :|
      Listed(exp, l, |l|, ps) && Descending(ps) && Nucleus(ps, p, m) && KeepsPrefix(l, ps, m, out);
    TopPMass(exp, l, out, ps, m);
    ShareBound(OpenMass(exp, out, MaxLogit(l).v), p, OpenMass(exp, l, MaxLogit(l).v));
  }

  lemma NearIsCandidate(l: Logits, j: nat)
    requires j < |l| && MaxLogit(l).Fin?
    requires l[j].Fin? && forall i | 0 <= i < |l| && l[i].Fin? :: l[j].v >= l[i].v - 16.0
    ensures Candidate(l, j)
  {
    var top :| 0 <= top < |l| && l[top] == MaxLogit(l);
  }

  /** And no more than needed: without any one of the kept ids the rest falls short of the share p,
      unless that id is the only one. */
  lemma TopPKeepsLittle(exp: real -> real, l: Logits, p: real, out: Logits, i: nat)
    requires Softmaxable(exp, l) && TopP(exp, l, p, out) && 0.0 < p < 1.0 && i < |l| == |out| && out[i].Fin?
    ensures MaxLogit(l).Fin?
    ensures || (forall j | 0 <= j < |out| && out[j].Fin? :: j == i)
            || OpenMass(exp, out[i := NegInf], MaxLogit(l).v) < Level(p, OpenMass(exp, l, MaxLogit(l).v))
  {
    hide *;
    MassIsPositive(exp, l);
    var ps, m := TopPParts(exp, l, p, out);
    NucleusParts(ps, p, m);
    var a := KeptEntry(l, ps, m, out, i);
    if m == 1 {
      KeptAlone(l, ps, out, i);
    } else {
      LastIsLeast(ps, p, m, a);
      ListedApart(exp, l, ps);
      TopPWithout(exp, l, p, out, ps, m, a);
    }
  }

  lemma TopPParts(exp: real -> real, l: Logits, p: real, out: Logits) returns (ps: seq<TokenProb>, m: nat)
    requires Softmaxable(exp, l) && TopP(exp, l, p, out) && 0.0 < p < 1.0
    ensures Listed(exp, l, |l|, ps) && Descending(ps) && Nucleus(ps, p, m) && KeepsPrefix(l, ps, m, out)
  {
    hide Softmaxable, Listed, Descending, Nucleus, KeepsPrefix;
    ps, m :| Listed(exp, l, |l|, ps) && Descending(ps) && Nucleus(ps, p, m) && KeepsPrefix(l, ps, m, out);
  }

  lemma KeptEntry(l: Logits, ps: seq<TokenProb>, m: nat, out: Logits, i: nat) returns (a: nat)
    requires KeepsPrefix(l, ps, m, out) && i < |out| && out[i].Fin?
    ensures a < m <= |ps| && |out| == |l| && ps[a].id == i && out[i] == l[i]
  {
    a :| 0 <= a < m && ps[a].id == i;
  }

  lemma KeptAlone(l: Logits, ps: seq<TokenProb>, out: Logits, i: nat)
    requires KeepsPrefix(l, ps, 1, out) && i < |out| && out[i].Fin?
    ensures forall j | 0 <= j < |out| && out[j].Fin? :: j == i
  {
    forall j | 0 <= j < |out| && out[j].Fin? ensures j == i {
      var a := KeptEntry(l, ps, 1, out, i);
      var b := KeptEntry(l, ps, 1, out, j);
    }
  }

  lemma LastIsLeast(ps: seq<TokenProb>, p: real, m: nat, a: nat)
    requires Descending(ps) && Nucleus(ps, p, m) && 1 < m && a < m
    ensures m <= |ps| && Cumulative(ps, m) - ps[a].prob < p
  {
    hide Cumulative;
    CumulativeStep(ps, m - 1);
    assert ps[a].prob >= ps[m - 1].prob;
  }

  lemma TopPWithout(exp: real -> real, l: Logits, p: real, out: Logits, ps: seq<TokenProb>, m: nat, a: nat)
    requires Softmaxable(exp, l) && Listed(exp, l, |l|, ps) && KeepsPrefix(l, ps, m, out) && a < m <= |ps| && |out| == |l|
    requires Cumulative(ps, m) - ps[a].prob < p && ps[a].id < |l| && MaxLogit(l).Fin? && out[ps[a].id] == l[ps[a].id]
    ensures OpenMass(exp, out[ps[a].id := NegInf], MaxLogit(l).v) < Level(p, OpenMass(exp, l, MaxLogit(l).v))
  {
    hide *;
    var i, max := ps[a].id, MaxLogit(l).v;
    var rest, whole := OpenMass(exp, out[i := NegInf], max), OpenMass(exp, l, max);
    TopPMass(exp, l, out, ps, m);
    ListedApart(exp, l, ps);
    OpenMassUpdate(exp, out, max, i, NegInf);
    NoWeight(exp, max);
    ProbabilityIs(exp, l, i);
    ShareAdds(rest, Weight(exp, l[i], max), whole);
    ShareBound(rest, p, whole);
  }

  // ----- the draw without its reference point ---------------------------------------------

  /** An exponential turns sums into products. */
  ghost predicate Multiplies(exp: real -> real) {
    forall x: real, y: real :: Ex(exp, x + y) == Ex(exp, x) * Ex(exp, y)
  }

  /** With such an exponential, subtracting the greatest logit first changes nothing: the draw is that
      of the softmax of the logits themselves. */
  lemma DrawnIsSoftmax(exp: real -> real, l: Logits, max: real, u: real, id: nat)
    requires ExpOk(exp) && Multiplies(exp)
    ensures Drawn(Weights(exp, l, max), u, id) <==> Drawn(Weights(exp, l, 0.0), u, id)
  {
    PositiveFactor(exp, -max);
    hide Weights, Weight, Mass, Ex, ExpOk, Multiplies, Level;
    var f := Ex(exp, -max);
    var w, w0 := Weights(exp, l, max), Weights(exp, l, 0.0);
    forall n: nat | n <= |l|
      ensures Mass(w, n) < Level(u, Mass(w, |w|)) <==> Mass(w0, n) < Level(u, Mass(w0, |w0|)) {
      MassScaled(exp, l, max, n);
      MassScaled(exp, l, max, |l|);
      ScaledLess(f, Mass(w0, n), u, Mass(w0, |l|));
    }
  }

  lemma PositiveFactor(exp: real -> real, x: real)
    requires ExpOk(exp)
    ensures Ex(exp, x) > 0.0
  {
  }

  lemma {:induction false} MassScaled(exp: real -> real, l: Logits, max: real, n: nat)
    requires n <= |l| && Multiplies(exp)
    ensures Mass(Weights(exp, l, max), n) == Level(Ex(exp, -max), Mass(Weights(exp, l, 0.0), n))
  {
    hide Ex, Level, Multiplies, Weight;
    if n > 0 {
      MassScaled(exp, l, max, n - 1);
      WeightScaled(exp, l[n - 1], max);
      LevelAdds(Ex(exp, -max), Mass(Weights(exp, l, 0.0), n - 1), Weight(exp, l[n - 1], 0.0));
    } else {
      LevelNone(Ex(exp, -max));
    }
  }

  lemma WeightScaled(exp: real -> real, x: Logit, max: real)
    requires Multiplies(exp)
    ensures Weight(exp, x, max) == Level(Ex(exp, -max), Weight(exp, x, 0.0))
  {
    hide Ex;
    if x.Fin? { assert Ex(exp, x.v + -max) == Ex(exp, x.v) * Ex(exp, -max) && x.v + -max == x.v - max; }
  }

  lemma LevelNone(f: real)
    ensures Level(f, 0.0) == 0.0
  {
  }

  lemma LevelAdds(f: real, a: real, b: real)
    ensures Level(f, a + b) == Level(f, a) + Level(f, b)
  {
  }

  lemma ScaledLess(f: real, a: real, u: real, b: real)
    requires f > 0.0
    ensures Level(f, a) < Level(u, Level(f, b)) <==> a < Level(u, b)
  {
    var d := u * b - a;
    assert u * (f * b) - f * a == f * d;
    if d > 0.0 { Positive(f, d); } else if d < 0.0 { Positive(f, -d); }
  }

  // ----- what is left of the sampler with its filters on or off ---------------------------

  /** With top-p on, the id returned scores no more than 16 below any other, at the given penalty and
      temperature. */
  lemma SampledIsNear(exp: real -> real, l: Logits, temperature: real, k: int, p: real, penalty: real,
                      history: seq<int>, u: real, id: nat, j: nat)
    requires temperature > 0.0 && penalty > 0.0 && ExpOk(exp) && SomeOpen(l) && 0.0 < p < 1.0
    requires Sampled(exp, l, temperature, k, p, penalty, history, u, id) && j < |l|
    ensures var start := Scaled(Penalized(l, history, penalty), temperature);
            && id < |start| == |l| && start[id].Fin?
            && (start[j].Fin? ==> start[id].v >= start[j].v - 16.0)
  {
    hide Mass, TopK, TopP, Softmaxable, Scaled, Penalized, Level, MaxLogit;
    var start := Scaled(Penalized(l, history, penalty), temperature);
    var mid, out :| Filtered(exp, l, temperature, k, p, penalty, history, mid, out)
                    && Drawn(Weights(exp, out, MaxValue(out)), u, id);
    PreparedOpen(l, history, penalty, temperature);
    TopKOpen(start, k, mid);
    TopPOpen(exp, mid, p, out);
    DrawnHasWeight(Weights(exp, out, MaxValue(out)), u, id);
    WeightsOpen(exp, out, MaxValue(out));
    if start[j].Fin? {
      var top := BestStays(start, k, mid, j);
      TopPKeepsNear(exp, mid, p, out, id, top);
    }
  }

  /** Top-k keeps an id that scores at least as high as any given one. */
  lemma BestStays(l: Logits, k: int, out: Logits, j: nat) returns (top: nat)
    requires TopK(l, k, out) && j < |l| && l[j].Fin?
    ensures top < |l| == |out| && out[top] == l[top] && l[top].Fin? && l[top].v >= l[j].v
  {
    assert !Less(MaxLogit(l), l[j]);
    top :| 0 <= top < |l| && l[top] == MaxLogit(l);
    if 0 < k < |l| {
      var t :| KthLargest(l, k, t) && out == Masked(l, t);
      assert !Less(l[top], t);
    }
  }

  /** With both filters off the draw is the softmax of the penalised logits at the temperature. */
  lemma PlainSampling(exp: real -> real, l: Logits, temperature: real, k: int, p: real, penalty: real,
                      history: seq<int>, u: real, id: nat)
    requires temperature > 0.0 && penalty > 0.0 && ExpOk(exp) && Multiplies(exp) && SomeOpen(l)
    requires !(0 < k < |l|) && !(0.0 < p < 1.0)
    ensures Sampled(exp, l, temperature, k, p, penalty, history, u, id)
       <==> Drawn(Weights(exp, Scaled(Penalized(l, history, penalty), temperature), 0.0), u, id)
  {
    hide Softmaxable, Drawn, Weights, Scaled, Penalized, MaxLogit, SomeOpen, ExpOk, Multiplies, KthLargest;
    var start := Scaled(Penalized(l, history, penalty), temperature);
    PreparedOpen(l, history, penalty, temperature);
    OpenIsSoftmaxable(exp, start);
    DrawnIsSoftmax(exp, start, MaxValue(start), u, id);
    assert TopK(start, k, start) && TopP(exp, start, p, start);
    if Drawn(Weights(exp, start, MaxValue(start)), u, id) {
      FromStages(exp, l, temperature, k, p, penalty, history, start, start, u, id);
    }
  }
}
