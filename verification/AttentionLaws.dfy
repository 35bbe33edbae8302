/** What the reference's scores and averages mean, in the terms of the inputs alone. */
module AttentionLaws {
  import opened Softmax
  import opened SplitGeometry
  import opened PagedBatch

  // ------------------------------------------------------------------ the score is the dot product

  function Unit(i: nat): Vec { seq(HEAD_DIM, d => if d == i then 1.0 else 0.0) }

  function Added(a: Vec, b: Vec): Vec { seq(HEAD_DIM, d requires 0 <= d < HEAD_DIM => a[d] + b[d]) }

  function Scaled(k: real, a: Vec): Vec { seq(HEAD_DIM, d requires 0 <= d < HEAD_DIM => k * a[d]) }

  lemma {:induction false} DotSymmetric(a: Vec, b: Vec, n: nat)
    requires n <= HEAD_DIM
    ensures Dot(a, b, n) == Dot(b, a, n)
  {
    if n > 0 { DotSymmetric(a, b, n - 1); }
  }

  lemma Distribute(x: real, y: real, z: real)
    ensures (x + y) * z == x * z + y * z
    ensures (x * y) * z == x * (y * z)
  {
  }

  lemma {:induction false} DotAdds(a: Vec, b: Vec, c: Vec, n: nat)
    requires n <= HEAD_DIM
    ensures Dot(Added(a, b), c, n) == Dot(a, c, n) + Dot(b, c, n)
  {
    if n > 0 {
      DotAdds(a, b, c, n - 1);
      Distribute(a[n - 1], b[n - 1], c[n - 1]);
    }
  }

  lemma {:induction false} DotScales(k: real, a: Vec, b: Vec, n: nat)
    requires n <= HEAD_DIM
    ensures Dot(Scaled(k, a), b, n) == k * Dot(a, b, n)
  {
    if n > 0 {
      DotScales(k, a, b, n - 1);
      Distribute(k, a[n - 1], b[n - 1]);
      Distribute(Dot(a, b, n - 1), a[n - 1] * b[n - 1], k);
    }
  }

  lemma {:induction false} DotUnitUpTo(a: Vec, i: nat, n: nat)
    requires i < HEAD_DIM && n <= HEAD_DIM
    ensures Dot(a, Unit(i), n) == if i < n then a[i] else 0.0
  {
    if n > 0 { DotUnitUpTo(a, i, n - 1); }
  }

  /** The laws that make a product of vectors the dot product: bilinear, symmetric, and picking out
      coordinates. */
  lemma DotIsTheDotProduct(a: Vec, b: Vec, c: Vec, k: real, i: nat)
    requires i < HEAD_DIM
    ensures Dot(a, b, HEAD_DIM) == Dot(b, a, HEAD_DIM)
    ensures Dot(Added(a, b), c, HEAD_DIM) == Dot(a, c, HEAD_DIM) + Dot(b, c, HEAD_DIM)
    ensures Dot(Scaled(k, a), c, HEAD_DIM) == k * Dot(a, c, HEAD_DIM)
    ensures Dot(a, Unit(i), HEAD_DIM) == a[i]
  {
    DotSymmetric(a, b, HEAD_DIM);
    DotAdds(a, b, c, HEAD_DIM);
    DotScales(k, a, c, HEAD_DIM);
    DotUnitUpTo(a, i, HEAD_DIM);
  }

  // ------------------------------------------------------------------ the average

  /** The sum of a finite list, without weights. */
  function Total(p: seq<real>): real { if p == [] then 0.0 else Total(p[..|p| - 1]) + p[|p| - 1] }

  lemma {:induction false} TotalIsSum(p: seq<real>, f: int -> real)
    requires forall j :: 0 <= j < |p| ==> f(j) == p[j]
    ensures Total(p) == Sum(f, 0, |p|)
  {
    if p != [] { TotalIsSum(p[..|p| - 1], f); }
  }

  lemma {:induction false} TotalShares(p: seq<real>, w: seq<real>, t: real)
    requires |p| == |w| && t > 0.0 && forall j :: 0 <= j < |p| ==> p[j] == w[j] / t
    ensures Total(p) == Total(w) / t
  {
    if p != [] {
      var n := |p| - 1;
      TotalShares(p[..n], w[..n], t);
      Quotients(Total(w[..n]), w[n], t);
    }
  }

  lemma Quotients(a: real, b: real, t: real)
    requires t > 0.0
    ensures a / t + b / t == (a + b) / t
  {
  }

  /** Query and key vectors of a row, by the layout of the inputs. */
  predicate Located(x: Batch, r: Row, j: nat)
    requires IsRow(x, r)
  {
    && (x.cuq[r.b] + r.i) * HEADS + r.h < |x.q| && j / NTILE < |x.table[r.b]|
    && (x.table[r.b][j / NTILE] * NTILE + j % NTILE) * KV_HEADS + r.h / GROUP < |x.k|
  }

  function Query(x: Batch, r: Row): Vec
    requires IsRow(x, r)
  {
    x.q[(x.cuq[r.b] + r.i) * HEADS + r.h]
  }

  function Cached(x: Batch, cache: seq<Vec>, r: Row, j: nat): Vec
    requires IsRow(x, r) && Located(x, r, j) && |cache| == |x.k|
  {
    cache[(x.table[r.b][j / NTILE] * NTILE + j % NTILE) * KV_HEADS + r.h / GROUP]
  }

  lemma ColumnLocated(x: Batch, r: Row, j: nat)
    requires IsRow(x, r) && j < x.seqk[r.b]
    ensures Located(x, r, j)
    ensures Cached(x, x.k, r, j) == x.k[x.CacheRow(r.b, j, r.h / GROUP)]
    ensures Cached(x, x.v, r, j) == x.v[x.CacheRow(r.b, j, r.h / GROUP)]
    ensures Score(x, r, j) == Dot(Query(x, r), Cached(x, x.k, r, j), HEAD_DIM)
  {
    assert x.CacheRow(r.b, j, r.h / GROUP) == (x.table[r.b][j / NTILE] * NTILE + j % NTILE) * KV_HEADS + r.h / GROUP;
  }

  /** The last column the row may see: the last column belongs to the last query. */
  function Limit(x: Batch, r: Row): int
    requires IsRow(x, r)
  {
    x.seqk[r.b] - (x.cuq[r.b + 1] - x.cuq[r.b]) + r.i
  }

  /** How much better column `j` fits the query than column `i`. */
  function Gap(x: Batch, r: Row, i: nat, j: nat): real
    requires IsRow(x, r) && Located(x, r, i) && Located(x, r, j)
  {
    Dot(Query(x, r), Cached(x, x.k, r, j), HEAD_DIM) - Dot(Query(x, r), Cached(x, x.k, r, i), HEAD_DIM)
  }

  /** A score in the log2 domain. */
  function Logit(score: real, scale: real, log2e: real): real { score * scale * log2e }

  /** A column the row may see has a positive weight, any other none. */
  predicate RightSign(x: Batch, r: Row, p: seq<real>, j: nat)
    requires IsRow(x, r) && j < |p|
  {
    if j <= Limit(x, r) then p[j] > 0.0 else p[j] == 0.0
  }

  /** Two visible columns' weights are in the ratio of the exponentials of their scaled scores. */
  predicate RightRatio(x: Batch, e: real -> real, log2e: real, scale: real, r: Row, p: seq<real>, i: nat, j: nat)
    requires IsRow(x, r) && i < |p| && j < |p| && Located(x, r, i) && Located(x, r, j)
  {
    i <= Limit(x, r) && j <= Limit(x, r) ==> p[j] == p[i] * e(Logit(Gap(x, r, i, j), scale, log2e))
  }

  /** The weights of a row: a probability over the columns it may see, in the ratios of the exponentials
      of their scaled scores. */
  ghost predicate SoftmaxWeights(x: Batch, e: real -> real, log2e: real, scale: real, r: Row, p: seq<real>)
    requires IsRow(x, r)
  {
    && |p| == x.seqk[r.b] && Total(p) == 1.0
    && (forall j: nat :: j < |p| ==> Located(x, r, j))
    && (forall j: nat :: j < |p| ==> RightSign(x, r, p, j))
    && forall i: nat, j: nat :: i < |p| && j < |p| ==> RightRatio(x, e, log2e, scale, r, p, i, j)
  }

  /** Coordinate `d` of each column's value, times its weight. */
  function Terms(x: Batch, r: Row, p: seq<real>, d: nat): seq<real>
    requires IsRow(x, r) && d < HEAD_DIM && forall j: nat :: j < |p| ==> Located(x, r, j)
  {
    seq(|p|, j requires 0 <= j < |p| => p[j] * Cached(x, x.v, r, j)[d])
  }

  function WeightList(x: Batch, e: real -> real, log2e: real, scale: real, r: Row): seq<real>
    requires IsRow(x, r)
  {
    seq(x.seqk[r.b], j => RefWeights(x, e, log2e, scale, r)(j))
  }

  function ShareList(x: Batch, e: real -> real, log2e: real, scale: real, r: Row): seq<real>
    requires IsRow(x, r)
  {
    seq(x.seqk[r.b], j => Share(RefWeights(x, e, log2e, scale, r)(j), RefTotal(x, e, log2e, scale, r)))
  }

  lemma ExpIs(e: real -> real, log2e: real, score: real, scale: real)
    ensures Exp(e, log2e, Product(score, scale)) == e(Logit(score, scale, log2e))
  {
    var y := Product(score, scale) * log2e;
    assert y == Logit(score, scale, log2e);
    assert Exp(e, log2e, Product(score, scale)) == e(y);
  }

  lemma WeightIs(x: Batch, e: real -> real, log2e: real, scale: real, r: Row, j: nat)
    requires IsRow(x, r) && IsExp2(e) && j < x.seqk[r.b]
    ensures RefWeights(x, e, log2e, scale, r)(j)
         == if j <= Limit(x, r) then e(Logit(Score(x, r, j), scale, log2e)) else 0.0
  {
    ExpIs(e, log2e, Score(x, r, j), scale);
    assert Visible(x, r, j) <==> j <= Limit(x, r);
    assert ScaledScore(x, r, j, scale) == Product(Score(x, r, j), scale);
  }

  lemma Ratio(e: real -> real, a: real, b: real, scale: real, log2e: real, t: real)
    requires IsExp2(e) && t > 0.0
    ensures Share(e(Logit(b, scale, log2e)), t)
         == Product(Share(e(Logit(a, scale, log2e)), t), e(Logit(b - a, scale, log2e)))
  {
    Distribute(b - a, a, scale);
    Distribute((b - a) * scale, a * scale, log2e);
    assert Logit(b, scale, log2e) == Plus(Logit(a, scale, log2e), Logit(b - a, scale, log2e));
    Fraction(e(Logit(a, scale, log2e)), e(Logit(b - a, scale, log2e)), t);
  }

  lemma Fraction(x: real, y: real, t: real)
    requires t > 0.0
    ensures x * y / t == x / t * y
  {
  }

  lemma ShareListIs(x: Batch, e: real -> real, log2e: real, scale: real, r: Row)
    requires IsRow(x, r) && IsExp2(e) && x.seqk[r.b] > 0 && Limit(x, r) >= 0
    ensures
      var p, t := ShareList(x, e, log2e, scale, r), RefTotal(x, e, log2e, scale, r);
      && t > 0.0 && Total(p) == 1.0
      && forall j: nat :: j < |p| ==> p[j] == RefWeights(x, e, log2e, scale, r)(j) / t
  {
    var p, w, t := ShareList(x, e, log2e, scale, r), WeightList(x, e, log2e, scale, r), RefTotal(x, e, log2e, scale, r);
    RefTotalPositive(x, e, log2e, scale, r);
    TotalIsSum(w, RefWeights(x, e, log2e, scale, r));
    forall j: nat | j < |p| ensures p[j] == w[j] / t { ShareIs(w[j], t); }
    TotalShares(p, w, t);
    assert Total(w) == t;
    Whole(t);
  }

  lemma Whole(t: real)
    requires t > 0.0
    ensures t / t == 1.0
  {
  }

  lemma ShareIs(w: real, t: real)
    requires t > 0.0
    ensures Share(w, t) == w / t
  {
  }

  lemma OneShare(x: Batch, e: real -> real, log2e: real, scale: real, r: Row, j: nat)
    requires IsRow(x, r) && IsExp2(e) && Limit(x, r) >= 0 && j < x.seqk[r.b]
    ensures RightSign(x, r, ShareList(x, e, log2e, scale, r), j)
  {
    ShareListIs(x, e, log2e, scale, r);
    WeightIs(x, e, log2e, scale, r, j);
    SharePositive(RefWeights(x, e, log2e, scale, r)(j), RefTotal(x, e, log2e, scale, r));
  }

  lemma GapIs(x: Batch, r: Row, i: nat, j: nat)
    requires IsRow(x, r) && i < x.seqk[r.b] && j < x.seqk[r.b]
    ensures Located(x, r, i) && Located(x, r, j)
    ensures Gap(x, r, i, j) == Score(x, r, j) - Score(x, r, i)
  {
    ColumnLocated(x, r, i);
    ColumnLocated(x, r, j);
  }

  lemma VisibleShares(x: Batch, e: real -> real, log2e: real, scale: real, r: Row, i: nat, j: nat)
    requires IsRow(x, r) && IsExp2(e) && i < x.seqk[r.b] && j < x.seqk[r.b]
    requires i <= Limit(x, r) && j <= Limit(x, r)
    ensures
      var p := ShareList(x, e, log2e, scale, r);
      p[j] == Product(p[i], e(Logit(Score(x, r, j) - Score(x, r, i), scale, log2e)))
  {
    RefTotalPositive(x, e, log2e, scale, r);
    TwoWeights(x, e, log2e, scale, r, i, j, RefTotal(x, e, log2e, scale, r));
  }

  lemma TwoShares(x: Batch, e: real -> real, log2e: real, scale: real, r: Row, i: nat, j: nat)
    requires IsRow(x, r) && IsExp2(e) && Limit(x, r) >= 0 && i < x.seqk[r.b] && j < x.seqk[r.b]
    ensures Located(x, r, i) && Located(x, r, j)
    ensures RightRatio(x, e, log2e, scale, r, ShareList(x, e, log2e, scale, r), i, j)
  {
    GapIs(x, r, i, j);
    if i <= Limit(x, r) && j <= Limit(x, r) {
      VisibleShares(x, e, log2e, scale, r, i, j);
    }
  }

  lemma SharesAreWeights(x: Batch, e: real -> real, log2e: real, scale: real, r: Row)
    requires IsRow(x, r) && IsExp2(e) && x.seqk[r.b] > 0 && Limit(x, r) >= 0
    ensures SoftmaxWeights(x, e, log2e, scale, r, ShareList(x, e, log2e, scale, r))
  {
    var p := ShareList(x, e, log2e, scale, r);
    ShareListIs(x, e, log2e, scale, r);
    forall j: nat | j < |p| ensures Located(x, r, j) && RightSign(x, r, p, j) {
      ColumnLocated(x, r, j);
      OneShare(x, e, log2e, scale, r, j);
    }
    forall i: nat, j: nat | i < |p| && j < |p| ensures RightRatio(x, e, log2e, scale, r, p, i, j) {
      TwoShares(x, e, log2e, scale, r, i, j);
    }
  }

  lemma SharePositive(w: real, t: real)
    requires t > 0.0
    ensures w > 0.0 ==> w / t > 0.0
    ensures w == 0.0 ==> w / t == 0.0
  {
  }

  lemma TwoWeights(x: Batch, e: real -> real, log2e: real, scale: real, r: Row, i: nat, j: nat, t: real)
    requires IsRow(x, r) && IsExp2(e) && t > 0.0 && i < x.seqk[r.b] && j < x.seqk[r.b]
    requires i <= Limit(x, r) && j <= Limit(x, r)
    ensures
      var w := RefWeights(x, e, log2e, scale, r);
      Share(w(j), t) == Product(Share(w(i), t), e(Logit(Score(x, r, j) - Score(x, r, i), scale, log2e)))
  {
    WeightIs(x, e, log2e, scale, r, i);
    WeightIs(x, e, log2e, scale, r, j);
    Ratio(e, Score(x, r, i), Score(x, r, j), scale, log2e, t);
  }

  lemma TermIs(x: Batch, e: real -> real, log2e: real, scale: real, r: Row, d: nat, j: nat)
    requires IsRow(x, r) && d < HEAD_DIM && j < x.seqk[r.b]
    requires forall j: nat :: j < x.seqk[r.b] ==> Located(x, r, j)
    ensures AttentionTimes(x, e, log2e, scale, r, RefTotal(x, e, log2e, scale, r), d)(j)
         == Terms(x, r, ShareList(x, e, log2e, scale, r), d)[j]
  {
    ColumnLocated(x, r, j);
    var p, v := ShareList(x, e, log2e, scale, r), Cached(x, x.v, r, j)[d];
    assert AttentionTimes(x, e, log2e, scale, r, RefTotal(x, e, log2e, scale, r), d)(j) == Product(p[j], v);
    assert Terms(x, r, p, d)[j] == p[j] * v;
  }

  lemma TermsAre(x: Batch, e: real -> real, log2e: real, scale: real, r: Row, d: nat)
    requires IsRow(x, r) && d < HEAD_DIM
    requires forall j: nat :: j < x.seqk[r.b] ==> Located(x, r, j)
    ensures Total(Terms(x, r, ShareList(x, e, log2e, scale, r), d)) == RefTerm(x, e, log2e, scale, r, d)
  {
    var terms := Terms(x, r, ShareList(x, e, log2e, scale, r), d);
    var f := AttentionTimes(x, e, log2e, scale, r, RefTotal(x, e, log2e, scale, r), d);
    forall j: nat | j < |terms| ensures f(j) == terms[j] { TermIs(x, e, log2e, scale, r, d, j); }
    TotalIsSum(terms, f);
  }

  /** The reference's row is the average of the visible values under the softmax of the scaled dot
      products of its query with their keys. */
  lemma ReferenceIsAttention(x: Batch, e: real -> real, log2e: real, scale: real, r: Row) returns (p: seq<real>)
    requires IsRow(x, r) && IsExp2(e) && x.seqk[r.b] > 0 && Limit(x, r) >= 0
    ensures SoftmaxWeights(x, e, log2e, scale, r, p)
    ensures RefCell(x, e, log2e, scale, r).Num?
    ensures forall d :: 0 <= d < HEAD_DIM ==> RefCell(x, e, log2e, scale, r).value[d] == Total(Terms(x, r, p, d))
  {
    p := ShareList(x, e, log2e, scale, r);
    SharesAreWeights(x, e, log2e, scale, r);
    forall d | 0 <= d < HEAD_DIM
      ensures RefCell(x, e, log2e, scale, r).value[d] == Total(Terms(x, r, p, d))
    {
      TermsAre(x, e, log2e, scale, r, d);
    }
  }

  /** A row has no value exactly when its request has columns and the row may see none; without columns
      its value is zero. */
  lemma WithoutVisibleColumns(x: Batch, e: real -> real, log2e: real, scale: real, r: Row)
    requires IsRow(x, r)
    ensures RefCell(x, e, log2e, scale, r).NaN? <==> x.seqk[r.b] > 0 && Limit(x, r) < 0
    ensures x.seqk[r.b] == 0 ==>
      && RefCell(x, e, log2e, scale, r).Num?
      && forall d :: 0 <= d < HEAD_DIM ==> RefCell(x, e, log2e, scale, r).value[d] == 0.0
  {
    if x.seqk[r.b] == 0 {
      forall d | 0 <= d < HEAD_DIM ensures RefTerm(x, e, log2e, scale, r, d) == 0.0 {
      }
    }
  }

  /** These laws leave no choice: there is one list of weights. */
  lemma WeightsAreUnique(x: Batch, e: real -> real, log2e: real, scale: real, r: Row, p: seq<real>, p': seq<real>)
    requires IsRow(x, r) && IsExp2(e) && x.seqk[r.b] > 0 && Limit(x, r) >= 0
    requires SoftmaxWeights(x, e, log2e, scale, r, p) && SoftmaxWeights(x, e, log2e, scale, r, p')
    ensures p == p'
  {
    assert RightSign(x, r, p, 0) && RightSign(x, r, p', 0);
    var k := p'[0] / p[0];
    forall j: nat | j < |p| ensures p'[j] == k * p[j] {
      MultipleAt(x, e, log2e, scale, r, p, p', j);
    }
    TotalMultiple(p, p', k);
    assert k == 1.0;
    forall j: nat | j < |p| ensures p'[j] == p[j] { assert p'[j] == k * p[j]; }
  }

  lemma MultipleAt(x: Batch, e: real -> real, log2e: real, scale: real, r: Row, p: seq<real>, p': seq<real>, j: nat)
    requires IsRow(x, r) && j < |p| == |p'| && p[0] > 0.0 && Limit(x, r) >= 0 && Located(x, r, 0) && Located(x, r, j)
    requires RightSign(x, r, p, j) && RightSign(x, r, p', j)
    requires RightRatio(x, e, log2e, scale, r, p, 0, j) && RightRatio(x, e, log2e, scale, r, p', 0, j)
    ensures p'[j] == p'[0] / p[0] * p[j]
  {
    if j <= Limit(x, r) { SameMultiple(p[0], p'[0], e(Logit(Gap(x, r, 0, j), scale, log2e))); }
  }

  lemma SameMultiple(a: real, b: real, y: real)
    requires a > 0.0
    ensures b * y == b / a * (a * y)
  {
    Distribute(b / a, a, y);
  }

  lemma {:induction false} TotalMultiple(p: seq<real>, p': seq<real>, k: real)
    requires |p| == |p'| && forall j :: 0 <= j < |p| ==> p'[j] == k * p[j]
    ensures Total(p') == k * Total(p)
  {
    if p != [] {
      var n := |p| - 1;
      TotalMultiple(p[..n], p'[..n], k);
      Distribute(Total(p[..n]), p[n], k);
    }
  }

  // ------------------------------------------------------------------ what a row does not depend on

  /** Two batches look the same to a row, up to the columns it may not see. */
  ghost predicate SameToRow(x: Batch, y: Batch, r: Row) {
    && IsRow(x, r) && IsRow(y, r) && x.seqk[r.b] == y.seqk[r.b]
    && x.cuq[r.b + 1] - x.cuq[r.b] == y.cuq[r.b + 1] - y.cuq[r.b]
    && x.q[Slot(x, r)] == y.q[Slot(y, r)]
    && forall j: nat :: j < x.seqk[r.b] && j <= Limit(x, r) ==>
         && x.k[x.CacheRow(r.b, j, r.h / GROUP)] == y.k[y.CacheRow(r.b, j, r.h / GROUP)]
         && x.v[x.CacheRow(r.b, j, r.h / GROUP)] == y.v[y.CacheRow(r.b, j, r.h / GROUP)]
  }

  /** Columns after the causal limit, other requests and other heads do not influence a row. */
  lemma FutureIsIgnored(x: Batch, y: Batch, e: real -> real, log2e: real, scale: real, r: Row)
    requires SameToRow(x, y, r) && IsExp2(e)
    ensures RefCell(x, e, log2e, scale, r) == RefCell(y, e, log2e, scale, r)
  {
    var w, w' := RefWeights(x, e, log2e, scale, r), RefWeights(y, e, log2e, scale, r);
    forall j | 0 <= j < x.seqk[r.b] ensures w(j) == w'(j) {
      WeightIs(x, e, log2e, scale, r, j);
      WeightIs(y, e, log2e, scale, r, j);
      assert Visible(x, r, j) ==> Score(x, r, j) == Score(y, r, j);
    }
    SumEqual(w, w', 0, x.seqk[r.b]);
    forall d | 0 <= d < HEAD_DIM ensures RefTerm(x, e, log2e, scale, r, d) == RefTerm(y, e, log2e, scale, r, d) {
      SameTerm(x, y, e, log2e, scale, r, d);
    }
  }

  lemma SameFactor(x: Batch, y: Batch, r: Row, d: nat, j: nat, w: real)
    requires SameToRow(x, y, r) && d < HEAD_DIM && j < x.seqk[r.b] && (j <= Limit(x, r) || w == 0.0)
    ensures Product(w, Values(x, r, d)(j)) == Product(w, Values(y, r, d)(j))
  {
    if j <= Limit(x, r) {
      assert Values(x, r, d)(j) == Values(y, r, d)(j);
    } else {
      NothingTimes(w, Values(x, r, d)(j));
      NothingTimes(w, Values(y, r, d)(j));
    }
  }

  lemma SameColumn(x: Batch, y: Batch, e: real -> real, log2e: real, scale: real, r: Row, d: nat, j: nat, t: real)
    requires SameToRow(x, y, r) && d < HEAD_DIM && j < x.seqk[r.b]
    requires RefWeights(x, e, log2e, scale, r)(j) == RefWeights(y, e, log2e, scale, r)(j)
    requires j > Limit(x, r) ==> RefWeights(x, e, log2e, scale, r)(j) == 0.0
    ensures AttentionTimes(x, e, log2e, scale, r, t, d)(j) == AttentionTimes(y, e, log2e, scale, r, t, d)(j)
  {
    SameFactor(x, y, r, d, j, Share(RefWeights(x, e, log2e, scale, r)(j), t));
  }

  lemma SameTerm(x: Batch, y: Batch, e: real -> real, log2e: real, scale: real, r: Row, d: nat)
    requires SameToRow(x, y, r) && IsExp2(e) && d < HEAD_DIM
    requires RefTotal(x, e, log2e, scale, r) == RefTotal(y, e, log2e, scale, r)
    requires forall j :: 0 <= j < x.seqk[r.b] ==>
      RefWeights(x, e, log2e, scale, r)(j) == RefWeights(y, e, log2e, scale, r)(j)
    ensures RefTerm(x, e, log2e, scale, r, d) == RefTerm(y, e, log2e, scale, r, d)
  {
    var t := RefTotal(x, e, log2e, scale, r);
    var f, g := AttentionTimes(x, e, log2e, scale, r, t, d), AttentionTimes(y, e, log2e, scale, r, t, d);
    forall j | 0 <= j < x.seqk[r.b] ensures f(j) == g(j) {
      WeightIs(x, e, log2e, scale, r, j);
      SameColumn(x, y, e, log2e, scale, r, d, j, t);
    }
    SumEqual(f, g, 0, x.seqk[r.b]);
  }

  lemma NothingTimes(x: real, v: real)
    requires x == 0.0
    ensures Product(x, v) == 0.0
  {
  }
}
