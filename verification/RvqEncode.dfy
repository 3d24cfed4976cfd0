/** Residual vector quantisation on the host (src/quantizer-encode.h), in exact arithmetic. A buffer
    of frames is a list of rows. */
module RvqEncode {
  import opened Seqs
  import opened Vectors
  import Multiples
  import S = CodecStream

  type Book = seq<Vec>

  /** Sum of the first n products. */
  function Dot(a: Vec, b: Vec, n: nat): real
    requires n <= |a| && n <= |b|
  {
    if n == 0 then 0.0 else Dot(a, b, n - 1) + a[n - 1] * b[n - 1]
  }

  function SquaredDistance(a: Vec, b: Vec, n: nat): real
    requires n <= |a| && n <= |b|
  {
    if n == 0 then 0.0 else SquaredDistance(a, b, n - 1) + (a[n - 1] - b[n - 1]) * (a[n - 1] - b[n - 1])
  }

  /** The score ||c||^2 - 2<r, c> differs from the true squared distance by ||r||^2, which does not
      depend on the centroid. */
  lemma {:induction false} ScoreIsDistance(r: Vec, c: Vec, n: nat)
    requires n <= |r| && n <= |c|
    ensures Dot(c, c, n) - 2.0 * Dot(r, c, n) == SquaredDistance(r, c, n) - Dot(r, r, n)
  {
    if n > 0 {
      ScoreIsDistance(r, c, n - 1);
      Binomial(r[n - 1], c[n - 1]);
    }
  }

  lemma Binomial(x: real, y: real)
    ensures (x - y) * (x - y) == x * x - 2.0 * (x * y) + y * y
  {
  }

  predicate Sized(rows: seq<Vec>, D: nat) { forall i | 0 <= i < |rows| :: |rows[i]| == D }

  function Far(r: Vec, book: Book, D: nat, e: nat): real
    requires |r| == D && Sized(book, D) && e < |book|
  {
    SquaredDistance(r, book[e], D)
  }

  /** Centroid e is the first of those nearest to r. */
  predicate Nearest(r: Vec, book: Book, D: nat, e: nat)
    requires |r| == D && Sized(book, D)
  {
    && e < |book|
    && (forall j | 0 <= j < |book| :: Far(r, book, D, e) <= Far(r, book, D, j))
    && (forall j | 0 <= j < e :: Far(r, book, D, e) < Far(r, book, D, j))
  }

  /** Precomputed squared norms. */
  predicate Norms(book: Book, D: nat, sqsum: seq<real>)
    requires Sized(book, D)
  {
    |sqsum| == |book| && forall e | 0 <= e < |book| :: sqsum[e] == Dot(book[e], book[e], D)
  }

  method LoadNorms(book: Book, D: nat) returns (sqsum: seq<real>)
    requires Sized(book, D)
    ensures Norms(book, D, sqsum)
  {
    sqsum := [];
    for e := 0 to |book|
      invariant |sqsum| == e && forall j | 0 <= j < e :: sqsum[j] == Dot(book[j], book[j], D)
    {
      var s := 0.0;
      for d := 0 to D
        invariant s == Dot(book[e], book[e], d)
      {
        s := s + book[e][d] * book[e][d];
      }
      sqsum := sqsum + [s];
    }
  }

  method DotProduct(a: Vec, b: Vec, D: nat) returns (dot: real)
    requires |a| == |b| == D
    ensures dot == Dot(a, b, D)
  {
    dot := 0.0;
    for d := 0 to D
      invariant dot == Dot(a, b, d)
    {
      dot := dot + a[d] * b[d];
    }
  }

  /** The argmin scan. None stands for the initial infinite score. */
  method Scan(r: Vec, book: Book, D: nat, sqsum: seq<real>) returns (best: nat)
    requires |r| == D && Sized(book, D) && book != [] && Norms(book, D, sqsum)
    ensures Nearest(r, book, D, best)
  {
    hide Dot, SquaredDistance;
    best := 0;
    var bestScore: Option<real> := None;
    for e := 0 to |book|
      invariant e == 0 ==> best == 0 && bestScore == None
      invariant e > 0 ==> best < e && bestScore == Some(Far(r, book, D, best) - Dot(r, r, D))
      invariant forall j | 0 <= j < e :: Far(r, book, D, best) <= Far(r, book, D, j)
      invariant forall j | 0 <= j < best :: Far(r, book, D, best) < Far(r, book, D, j)
    {
      var dot := DotProduct(r, book[e], D);
      var score := sqsum[e] - 2.0 * dot;
      ScoreIsDistance(r, book[e], D);
      if bestScore == None || score < bestScore.value {
        bestScore := Some(score);
        best := e;
      }
    }
  }

  // ----- one frame over all layers --------------------------------------------------------

  predicate BooksOk(books: seq<Book>, D: nat) {
    forall l | 0 <= l < |books| :: books[l] != [] && Sized(books[l], D)
  }

  /** Codes index their codebooks. */
  predicate InRange(books: seq<Book>, codes: seq<int>) {
    |codes| <= |books| && forall l | 0 <= l < |codes| :: 0 <= codes[l] < |books[l]|
  }

  /** What is left of x after subtracting the first n chosen centroids. */
  function Residual(x: Vec, books: seq<Book>, codes: seq<int>, n: nat): (r: Vec)
    requires BooksOk(books, |x|) && InRange(books, codes) && n <= |codes|
    ensures |r| == |x|
  {
    if n == 0 then x else Minus(Residual(x, books, codes, n - 1), books[n - 1][codes[n - 1]])
  }

  /** The sum of the first n chosen centroids: what a decoder rebuilds. */
  function Reconstruction(D: nat, books: seq<Book>, codes: seq<int>, n: nat): (r: Vec)
    requires BooksOk(books, D) && InRange(books, codes) && n <= |codes|
    ensures |r| == D
  {
    if n == 0 then seq(D, _ => 0.0) else Plus(Reconstruction(D, books, codes, n - 1), books[n - 1][codes[n - 1]])
  }

  /** The codes of a frame: at every layer the nearest centroid to what is left. */
  predicate Encodes(x: Vec, books: seq<Book>, codes: seq<int>)
    requires BooksOk(books, |x|)
  {
    && InRange(books, codes)
    && forall l | 0 <= l < |codes| :: LayerOk(x, books, codes, l)
  }

  predicate LayerOk(x: Vec, books: seq<Book>, codes: seq<int>, l: nat)
    requires BooksOk(books, |x|) && InRange(books, codes) && l < |codes|
  {
    Nearest(Residual(x, books, codes, l), books[l], |x|, codes[l])
  }

  lemma LayerHolds(x: Vec, books: seq<Book>, codes: seq<int>, l: nat)
    requires BooksOk(books, |x|) && InRange(books, codes) && l < |codes|
    requires Nearest(Residual(x, books, codes, l), books[l], |x|, codes[l])
    ensures LayerOk(x, books, codes, l)
  {
  }

  lemma EncodesByLayer(x: Vec, books: seq<Book>, codes: seq<int>)
    requires BooksOk(books, |x|) && InRange(books, codes)
    requires forall l | 0 <= l < |codes| :: LayerOk(x, books, codes, l)
    ensures Encodes(x, books, codes)
  {
    hide LayerOk;
  }

  /** Nothing is lost: the frame is the reconstruction plus the residual, after any number of
      layers, and the residual's energy is the reconstruction's squared error. */
  lemma {:induction false} Conserved(x: Vec, books: seq<Book>, codes: seq<int>, n: nat)
    requires BooksOk(books, |x|) && InRange(books, codes) && n <= |codes|
    ensures x == Plus(Reconstruction(|x|, books, codes, n), Residual(x, books, codes, n))
    ensures var r := Residual(x, books, codes, n);
            SquaredDistance(x, Reconstruction(|x|, books, codes, n), |x|) == Dot(r, r, |x|)
  {
    if n > 0 { Conserved(x, books, codes, n - 1); }
    ErrorEnergy(x, Reconstruction(|x|, books, codes, n), Residual(x, books, codes, n), |x|);
  }

  lemma {:induction false} ErrorEnergy(x: Vec, y: Vec, r: Vec, n: nat)
    requires |x| == |y| == |r| && x == Plus(y, r) && n <= |x|
    ensures SquaredDistance(x, y, n) == Dot(r, r, n)
  {
    if n > 0 {
      ErrorEnergy(x, y, r, n - 1);
      assert x[n - 1] - y[n - 1] == r[n - 1];
    }
  }

  lemma {:induction false} LayerFacts(x: Vec, books: seq<Book>, codes: seq<int>, l: nat)
    requires BooksOk(books, |x|) && Encodes(x, books, codes) && l < |codes|
    ensures InRange(books, codes) && l < |books| && 0 <= codes[l] < |books[l]| && Sized(books[l], |x|)
    ensures Nearest(Residual(x, books, codes, l), books[l], |x|, codes[l])
  {
    EncodesInRange(x, books, codes, l);
    BookAt(books, |x|, l);
    hide *;
    LayerMeans(x, books, codes, l);
  }

  lemma EncodesInRange(x: Vec, books: seq<Book>, codes: seq<int>, l: nat)
    requires BooksOk(books, |x|) && Encodes(x, books, codes) && l < |codes|
    ensures InRange(books, codes) && LayerOk(x, books, codes, l) && l < |books| && 0 <= codes[l] < |books[l]|
  {
    hide LayerOk, BooksOk;
  }

  lemma LayerMeans(x: Vec, books: seq<Book>, codes: seq<int>, l: nat)
    requires BooksOk(books, |x|) && InRange(books, codes) && l < |codes| && l < |books|
    requires Sized(books[l], |x|) && 0 <= codes[l] && LayerOk(x, books, codes, l)
    ensures Nearest(Residual(x, books, codes, l), books[l], |x|, codes[l])
  {
    hide Residual, Nearest, BooksOk, InRange, Sized;
  }

  /** No choice at a layer leaves less energy behind than the one made. */
  lemma {:induction false} GreedyIsBest(x: Vec, books: seq<Book>, codes: seq<int>, l: nat, e: nat)
    requires BooksOk(books, |x|) && Encodes(x, books, codes) && l < |codes| && e < |books[l]|
    ensures var left := Residual(x, books, codes, l);
            var r, other := Residual(x, books, codes, l + 1), Minus(left, books[l][e]);
            Dot(r, r, |x|) <= Dot(other, other, |x|)
  {
    LayerFacts(x, books, codes, l);
    ResidualStep(x, books, codes, l + 1);
    hide BooksOk, InRange, Encodes, Residual, Minus, Dot, SquaredDistance;
    var left := Residual(x, books, codes, l);
    Difference(left, books[l][e], |x|);
    Difference(left, books[l][codes[l]], |x|);
    assert Far(left, books[l], |x|, codes[l]) <= Far(left, books[l], |x|, e);
  }

  lemma {:induction false} Difference(a: Vec, b: Vec, n: nat)
    requires |a| == |b| && n <= |a|
    ensures Dot(Minus(a, b), Minus(a, b), n) == SquaredDistance(a, b, n)
  {
    if n > 0 { Difference(a, b, n - 1); }
  }

  /** The codes of a frame are unique: ties go to the lower index. */
  lemma {:induction false} EncodesUnique(x: Vec, books: seq<Book>, a: seq<int>, b: seq<int>, n: nat)
    requires BooksOk(books, |x|) && Encodes(x, books, a) && Encodes(x, books, b) && n <= |a| && n <= |b|
    ensures a[..n] == b[..n] && Residual(x, books, a, n) == Residual(x, books, b, n)
  {
    hide *;
    if n > 0 {
      LayerFacts(x, books, a, n - 1);
      LayerFacts(x, books, b, n - 1);
      EncodesUnique(x, books, a, b, n - 1);
      NearestUnique(Residual(x, books, a, n - 1), books[n - 1], |x|, a[n - 1], b[n - 1]);
      ResidualStep(x, books, a, n);
      ResidualStep(x, books, b, n);
      assert a[..n] == a[..n - 1] + [a[n - 1]] && b[..n] == b[..n - 1] + [b[n - 1]];
    } else {
      ResidualStart(x, books, a);
      ResidualStart(x, books, b);
    }
  }

  lemma ResidualStart(x: Vec, books: seq<Book>, codes: seq<int>)
    requires BooksOk(books, |x|) && Encodes(x, books, codes)
    ensures InRange(books, codes) && Residual(x, books, codes, 0) == x
  {
    hide Nearest;
  }

  lemma ResidualStep(x: Vec, books: seq<Book>, codes: seq<int>, n: nat)
    requires BooksOk(books, |x|) && InRange(books, codes) && 0 < n <= |codes|
    ensures Residual(x, books, codes, n) == Minus(Residual(x, books, codes, n - 1), books[n - 1][codes[n - 1]])
  {
  }

  lemma NearestUnique(r: Vec, book: Book, D: nat, e: nat, f: nat)
    requires |r| == D && Sized(book, D) && Nearest(r, book, D, e) && Nearest(r, book, D, f)
    ensures e == f
  {
    hide Far;
    assert Far(r, book, D, e) == Far(r, book, D, f);
  }

  // ----- the encode loops -----------------------------------------------------------------

  /** Every frame's residual after l layers, and its codes so far. */
  ghost predicate AfterLayers(xs: seq<Vec>, books: seq<Book>, cols: seq<seq<int>>, rs: seq<Vec>, D: nat, l: nat) {
    && Sized(xs, D) && BooksOk(books, D) && l <= |books|
    && |cols| == |rs| == |xs|
    && forall t | 0 <= t < |xs| ::
         |cols[t]| == l && Encodes(xs[t], books, cols[t]) && rs[t] == Residual(xs[t], books, cols[t], l)
  }

  lemma {:induction false} LayerTaken(x: Vec, books: seq<Book>, codes: seq<int>, e: nat)
    requires BooksOk(books, |x|) && Encodes(x, books, codes) && |codes| < |books|
    requires Nearest(Residual(x, books, codes, |codes|), books[|codes|], |x|, e)
    ensures Encodes(x, books, codes + [e]) && InRange(books, codes + [e])
    ensures Residual(x, books, codes + [e], |codes| + 1)
         == Minus(Residual(x, books, codes, |codes|), books[|codes|][e])
  {
    hide *;
    var more, n := codes + [e], |codes|;
    ResidualStart(x, books, codes);
    BookAt(books, |x|, n);
    NearestIndex(Residual(x, books, codes, n), books[n], |x|, e);
    RangeGrows(books, codes, e);
    SamePrefix(x, books, codes, e, n);
    ResidualStep(x, books, more, n + 1);
    forall l | 0 <= l < |more| ensures LayerOk(x, books, more, l) {
      SamePrefix(x, books, codes, e, l);
      if l < |codes| {
        LayerFacts(x, books, codes, l);
      }
      LayerHolds(x, books, more, l);
    }
    EncodesByLayer(x, books, more);
  }

  lemma RangeGrows(books: seq<Book>, codes: seq<int>, e: nat)
    requires InRange(books, codes) && |codes| < |books| && e < |books[|codes|]|
    ensures InRange(books, codes + [e])
  {
  }

  lemma {:induction false} SamePrefix(x: Vec, books: seq<Book>, codes: seq<int>, e: nat, n: nat)
    requires BooksOk(books, |x|) && InRange(books, codes) && InRange(books, codes + [e]) && n <= |codes|
    ensures Residual(x, books, codes + [e], n) == Residual(x, books, codes, n)
  {
    if n > 0 { SamePrefix(x, books, codes, e, n - 1); }
  }

  /** One codebook over all frames: scan, record, subtract in place. */
  method EncodeLayer(book: Book, sqsum: seq<real>, res: array<Vec>, T: nat, D: nat) returns (layer: seq<int>)
    requires T == res.Length && Sized(res[..], D) && Sized(book, D) && book != [] && Norms(book, D, sqsum)
    modifies res
    ensures |layer| == T && forall t | 0 <= t < T ::
              && 0 <= layer[t] < |book| && Nearest(old(res[t]), book, D, layer[t])
              && res[t] == Minus(old(res[t]), book[layer[t]])
  {
    hide Nearest;
    layer := [];
    for t := 0 to T
      invariant |layer| == t
      invariant forall s | 0 <= s < t ::
                  && 0 <= layer[s] < |book| && Nearest(old(res[s]), book, D, layer[s])
                  && res[s] == Minus(old(res[s]), book[layer[s]])
      invariant forall s | t <= s < T :: res[s] == old(res[s])
    {
      assert |res[t]| == D by { assert res[t] == old(res[..])[t]; }
      var best := Scan(res[t], book, D, sqsum);
      NearestIndex(res[t], book, D, best);
      layer := layer + [best];
      res[t] := Minus(res[t], book[best]);
    }
  }

  lemma NearestIndex(r: Vec, book: Book, D: nat, e: nat)
    requires |r| == D && Sized(book, D) && Nearest(r, book, D, e)
    ensures e < |book|
  {
  }

  /** quant_encode_side_loop: layer after layer; the codes come out codebook-major. */
  method SideLoop(books: seq<Book>, norms: seq<seq<real>>, res: array<Vec>, T: nat, D: nat)
    returns (codes: seq<int>, ghost cols: seq<seq<int>>)
    requires T == res.Length && Sized(res[..], D) && BooksOk(books, D)
    requires |norms| == |books| && forall l | 0 <= l < |books| :: Norms(books[l], D, norms[l])
    modifies res
    ensures AfterLayers(old(res[..]), books, cols, res[..], D, |books|)
    ensures S.Rectangular(cols, |books|) && codes == S.KMajor(cols, |books|)
  {
    hide Norms, Nearest, Encodes, Residual, BooksOk, Multiples.Scale;
    ghost var xs := res[..];
    codes := [];
    cols := seq(T, _ => []);
    NoLayers(xs, books, D);
    for l := 0 to |books|
      invariant AfterLayers(xs, books, cols, res[..], D, l) && S.Rectangular(cols, l)
      invariant codes == S.KMajor(cols, l)
    {
      BookAt(books, D, l);
      ResiduesSized(xs, books, cols, res[..], D, l);
      ghost var before := res[..];
      var layer := EncodeLayer(books[l], norms[l], res, T, D);
      ghost var more := seq(T, t requires 0 <= t < T => cols[t] + [layer[t]]);
      NextLayer(xs, books, cols, before, layer, res[..], more, D, l);
      RowsGrow(cols, layer, more, l);
      cols := more;
      codes := codes + layer;
    }
  }

  lemma BookAt(books: seq<Book>, D: nat, l: nat)
    requires BooksOk(books, D) && l < |books|
    ensures books[l] != [] && Sized(books[l], D)
  {
  }

  lemma NoLayers(xs: seq<Vec>, books: seq<Book>, D: nat)
    requires Sized(xs, D) && BooksOk(books, D)
    ensures AfterLayers(xs, books, seq(|xs|, _ => []), xs, D, 0)
    ensures S.Rectangular(seq(|xs|, _ => []), 0) && S.KMajor(seq(|xs|, _ => []), 0) == []
  {
  }

  lemma ResiduesSized(xs: seq<Vec>, books: seq<Book>, cols: seq<seq<int>>, rs: seq<Vec>, D: nat, l: nat)
    requires AfterLayers(xs, books, cols, rs, D, l)
    ensures Sized(rs, D)
  {
  }

  lemma NextLayer(xs: seq<Vec>, books: seq<Book>, cols: seq<seq<int>>, before: seq<Vec>, layer: seq<int>,
                  after: seq<Vec>, more: seq<seq<int>>, D: nat, l: nat)
    requires AfterLayers(xs, books, cols, before, D, l) && l < |books| && |layer| == |after| == |more| == |xs|
    requires Sized(before, D) && Sized(books[l], D)
    requires forall t | 0 <= t < |xs| ::
               && 0 <= layer[t] < |books[l]| && Nearest(before[t], books[l], D, layer[t])
               && after[t] == Minus(before[t], books[l][layer[t]])
    requires forall t | 0 <= t < |xs| :: more[t] == cols[t] + [layer[t]]
    ensures AfterLayers(xs, books, more, after, D, l + 1) && S.Rectangular(more, l + 1)
  {
    hide Nearest, Encodes, Residual;
    forall t | 0 <= t < |xs|
      ensures |more[t]| == l + 1 && Encodes(xs[t], books, more[t]) && InRange(books, more[t])
      ensures after[t] == Residual(xs[t], books, more[t], l + 1) {
      LayerTaken(xs[t], books, cols[t], layer[t]);
    }
  }

  /** One more codebook row behind the others. */
  lemma RowsGrow(cols: seq<seq<int>>, layer: seq<int>, more: seq<seq<int>>, l: nat)
    requires S.Rectangular(cols, l) && S.Rectangular(more, l + 1) && |layer| == |cols| == |more|
    requires forall t | 0 <= t < |cols| :: more[t] == cols[t] + [layer[t]]
    ensures S.KMajor(more, l + 1) == S.KMajor(cols, l) + layer
  {
    SameRows(cols, more, l, l + 1, l);
    assert S.Row(more, l + 1, l) == layer;
  }

  lemma {:induction false} SameRows(a: seq<seq<int>>, b: seq<seq<int>>, j: nat, k: nat, n: nat)
    requires S.Rectangular(a, j) && S.Rectangular(b, k) && n <= j && n <= k && |a| == |b|
    requires forall t | 0 <= t < |a| :: a[t][..n] == b[t][..n]
    ensures S.Rows(a, j, n) == S.Rows(b, k, n)
  {
    if n > 0 {
      forall t | 0 <= t < |a| ensures a[t][..n - 1] == b[t][..n - 1] && a[t][n - 1] == b[t][n - 1] {
        assert a[t][..n - 1] == a[t][..n][..n - 1] && b[t][..n - 1] == b[t][..n][..n - 1];
        assert a[t][n - 1] == a[t][..n][n - 1];
      }
      SameRows(a, b, j, k, n - 1);
      assert S.Row(a, j, n - 1) == S.Row(b, k, n - 1);
    }
  }

  // ----- both sides -----------------------------------------------------------------------

  /** The 1x1 projection of a frame: row o of the weights gives output o. */
  function Project(w: seq<Vec>, h: Vec): (r: Vec)
    requires Sized(w, |h|)
    ensures |r| == |w|
  {
    seq(|w|, o requires 0 <= o < |w| => Dot(h, w[o], |h|))
  }

  function ProjectAll(w: seq<Vec>, hs: seq<Vec>, H: nat): (r: seq<Vec>)
    requires Sized(w, H) && Sized(hs, H)
    ensures |r| == |hs| && Sized(r, |w|)
  {
    seq(|hs|, t requires 0 <= t < |hs| => Project(w, hs[t]))
  }

  /** quant_encode_linear. */
  method Linear(w: seq<Vec>, hs: seq<Vec>, H: nat) returns (ys: array<Vec>)
    requires Sized(w, H) && Sized(hs, H)
    ensures fresh(ys) && ys[..] == ProjectAll(w, hs, H)
  {
    hide Dot;
    ys := new Vec[|hs|](_ => []);
    for n := 0 to |hs|
      invariant forall t | 0 <= t < n :: ys[t] == Project(w, hs[t])
    {
      var y: Vec := [];
      for o := 0 to |w|
        modifies {}
        invariant |y| == o && forall k | 0 <= k < o :: y[k] == Dot(hs[n], w[k], H)
      {
        var acc := DotProduct(hs[n], w[o], H);
        y := y + [acc];
      }
      assert y == Project(w, hs[n]);
      ys[n] := y;
    }
  }

  datatype Side = Side(proj: seq<Vec>, books: seq<Book>, norms: seq<seq<real>>)

  predicate SideOk(s: Side, H: nat, D: nat) {
    && Sized(s.proj, H) && |s.proj| == D && BooksOk(s.books, D)
    && |s.norms| == |s.books| && forall l | 0 <= l < |s.books| :: Norms(s.books[l], D, s.norms[l])
  }

  /** A frame's codes: the semantic side's, then the acoustic side's. */
  ghost predicate FrameCodes(sem: Side, aco: Side, H: nat, D: nat, h: Vec, codes: seq<int>)
    requires SideOk(sem, H, D) && SideOk(aco, H, D) && |h| == H
  {
    var n := |sem.books|;
    && |codes| == n + |aco.books|
    && Encodes(Project(sem.proj, h), sem.books, codes[..n])
    && Encodes(Project(aco.proj, h), aco.books, codes[n..])
  }

  /** A frame's codes one by one: first the semantic codebooks', each the nearest centroid to what the
      codes before it leave of the semantic projection, then the acoustic ones' likewise. */
  lemma FrameCodesSpelled(sem: Side, aco: Side, H: nat, D: nat, h: Vec, codes: seq<int>, k: nat, e: nat)
    requires SideOk(sem, H, D) && SideOk(aco, H, D) && |h| == H
    requires FrameCodes(sem, aco, H, D, h, codes) && k < |sem.books| + |aco.books|
    ensures |codes| == |sem.books| + |aco.books|
    ensures k < |sem.books| && e < |sem.books[k]| ==>
              var x := Project(sem.proj, h);
              && |x| == D && InRange(sem.books, codes[..|sem.books|]) && |sem.books[k][e]| == D
              && 0 <= codes[k] < |sem.books[k]| && |sem.books[k][codes[k]]| == D
              && var rest := Residual(x, sem.books, codes[..|sem.books|], k);
                 SquaredDistance(rest, sem.books[k][codes[k]], D) <= SquaredDistance(rest, sem.books[k][e], D)
    ensures k >= |sem.books| && e < |aco.books[k - |sem.books|]| ==>
              var (x, l) := (Project(aco.proj, h), k - |sem.books|);
              && |x| == D && InRange(aco.books, codes[|sem.books|..]) && |aco.books[l][e]| == D
              && 0 <= codes[k] < |aco.books[l]| && |aco.books[l][codes[k]]| == D
              && var rest := Residual(x, aco.books, codes[|sem.books|..], l);
                 SquaredDistance(rest, aco.books[l][codes[k]], D) <= SquaredDistance(rest, aco.books[l][e], D)
  {
    hide Residual, SquaredDistance, Project, Norms;
    var n := |sem.books|;
    if k < n {
      NearestOf(Project(sem.proj, h), sem.books, codes[..n], k, e);
    } else {
      NearestOf(Project(aco.proj, h), aco.books, codes[n..], k - n, e);
    }
  }

  lemma NearestOf(x: Vec, books: seq<Book>, codes: seq<int>, l: nat, e: nat)
    requires BooksOk(books, |x|) && Encodes(x, books, codes) && l < |codes|
    ensures 0 <= codes[l] < |books[l]| && |books[l][codes[l]]| == |x|
    ensures e < |books[l]| ==>
              && |books[l][e]| == |x|
              && SquaredDistance(Residual(x, books, codes, l), books[l][codes[l]], |x|)
                 <= SquaredDistance(Residual(x, books, codes, l), books[l][e], |x|)
  {
    hide Residual, SquaredDistance;
    assert LayerOk(x, books, codes, l);
    if e < |books[l]| {
      assert Far(Residual(x, books, codes, l), books[l], |x|, codes[l]) <= Far(Residual(x, books, codes, l), books[l], |x|, e);
    }
  }

  /** Only one code list is right for a frame. */
  lemma FrameCodesUnique(sem: Side, aco: Side, H: nat, D: nat, h: Vec, a: seq<int>, b: seq<int>)
    requires SideOk(sem, H, D) && SideOk(aco, H, D) && |h| == H
    requires FrameCodes(sem, aco, H, D, h, a) && FrameCodes(sem, aco, H, D, h, b)
    ensures a == b
  {
    hide Encodes, Project, BooksOk, Norms;
    var n := |sem.books|;
    EncodesUnique(Project(sem.proj, h), sem.books, a[..n], b[..n], n);
    EncodesUnique(Project(aco.proj, h), aco.books, a[n..], b[n..], |aco.books|);
    assert a == a[..n] + a[n..] && b == b[..n] + b[n..];
  }

  /** The code lists of all frames. */
  ghost predicate FramesCodes(sem: Side, aco: Side, H: nat, D: nat, hidden: seq<Vec>, frames: seq<seq<int>>)
    requires SideOk(sem, H, D) && SideOk(aco, H, D) && Sized(hidden, H)
  {
    && |frames| == |hidden| && S.Rectangular(frames, |sem.books| + |aco.books|)
    && forall t | 0 <= t < |hidden| :: FrameCodes(sem, aco, H, D, hidden[t], frames[t])
  }

  /** quant_encode_cpu: the frames' code lists, codebook-major, so that codes[k * T + t] is frame t's
      choice at codebook k. */
  method EncodeCpu(sem: Side, aco: Side, hidden: seq<Vec>, H: nat, D: nat) returns (codes: seq<int>)
    requires SideOk(sem, H, D) && SideOk(aco, H, D) && Sized(hidden, H)
    ensures exists frames ::
              FramesCodes(sem, aco, H, D, hidden, frames) && codes == S.KMajor(frames, |sem.books| + |aco.books|)
  {
    hide Encodes, Project, BooksOk, Norms, Residual, S.KMajor;
    var T := |hidden|;
    var res := Linear(sem.proj, hidden, H);
    var first;
    ghost var left;
    first, left := SideLoop(sem.books, sem.norms, res, T, D);
    res := Linear(aco.proj, hidden, H);
    var second;
    ghost var right;
    second, right := SideLoop(aco.books, aco.norms, res, T, D);
    codes := first + second;
    ghost var frames := seq(T, t requires 0 <= t < T => left[t] + right[t]);
    JoinRows(left, right, frames, |sem.books|, |aco.books|);
    forall t | 0 <= t < T ensures FrameCodes(sem, aco, H, D, hidden[t], frames[t]) {
      var n := |sem.books|;
      assert frames[t][..n] == left[t] && frames[t][n..] == right[t];
    }
    assert FramesCodes(sem, aco, H, D, hidden, frames);
  }

  lemma JoinRows(left: seq<seq<int>>, right: seq<seq<int>>, frames: seq<seq<int>>, m: nat, n: nat)
    requires S.Rectangular(left, m) && S.Rectangular(right, n) && |left| == |right| == |frames|
    requires forall t | 0 <= t < |left| :: frames[t] == left[t] + right[t]
    ensures S.Rectangular(frames, m + n)
    ensures S.KMajor(frames, m + n) == S.KMajor(left, m) + S.KMajor(right, n)
  {
    forall t | 0 <= t < |left| ensures frames[t][..m] == left[t][..m] {
    }
    SameRows(frames, left, m + n, m, m);
    JoinSome(left, right, frames, m, n, n);
  }

  lemma {:induction false} JoinSome(left: seq<seq<int>>, right: seq<seq<int>>, frames: seq<seq<int>>, m: nat, n: nat, k: nat)
    requires S.Rectangular(left, m) && S.Rectangular(right, n) && S.Rectangular(frames, m + n) && k <= n
    requires |left| == |right| == |frames|
    requires forall t | 0 <= t < |left| :: frames[t] == left[t] + right[t]
    ensures S.Rows(frames, m + n, m + k) == S.Rows(frames, m + n, m) + S.Rows(right, n, k)
  {
    hide S.Row, S.Rectangular;
    if k > 0 {
      JoinSome(left, right, frames, m, n, k - 1);
      RightRow(left, right, frames, m, n, k - 1);
      var (a, b, c) := (S.Rows(frames, m + n, m), S.Rows(right, n, k - 1), S.Row(right, n, k - 1));
      assert a + b + c == a + (b + c);
    }
  }

  lemma RightRow(left: seq<seq<int>>, right: seq<seq<int>>, frames: seq<seq<int>>, m: nat, n: nat, k: nat)
    requires S.Rectangular(left, m) && S.Rectangular(right, n) && S.Rectangular(frames, m + n) && k < n
    requires |left| == |right| == |frames|
    requires forall t | 0 <= t < |left| :: frames[t] == left[t] + right[t]
    ensures S.Row(frames, m + n, m + k) == S.Row(right, n, k)
  {
  }
}
