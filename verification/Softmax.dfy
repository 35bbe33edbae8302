/** Online softmax in the log2 domain, over exact reals extended with minus infinity.
    The exponential is a parameter `e` that is only assumed positive and multiplicative. */
module Softmax {

  /** A score or a running maximum: the hardware value -INF, or a finite number. */
  datatype Ext = NegInf | Fin(v: real)

  /** Written as a function so that the law of `IsExp2` is only used where a proof names the sum. */
  function Plus(x: real, y: real): real { x + y }

  /** What the kernel needs of `ex2f`. */
  ghost predicate IsExp2(e: real -> real) {
    && (forall x :: e(x) > 0.0)
    && (forall x, y {:trigger Plus(x, y)} :: e(Plus(x, y)) == e(x) * e(y))
  }

  const CLAMP: real := -1000000000000000000000000000000.0

  function ExtMax(a: Ext, b: Ext): Ext {
    match (a, b)
    case (NegInf, _) => b
    case (_, NegInf) => a
    case (Fin(x), Fin(y)) => if x < y then b else a
  }

  /** `ex2f(a - b)`. The difference is a number only when `b` is finite: -INF - -INF is NaN. */
  function Ex2(e: real -> real, a: Ext, b: Ext): real
    requires b.Fin?
  {
    match a
    case NegInf => 0.0
    case Fin(x) => e(x - b.v)
  }

  /** The softmax weight of a score, before normalisation. */
  function Weight(e: real -> real, a: Ext): real {
    match a
    case NegInf => 0.0
    case Fin(x) => e(x)
  }

  function Product(x: real, k: real): real { x * k }

  /** Multiplying a masked score by the positive scale leaves it masked. */
  function Scale(a: Ext, qscl: real): Ext
    requires qscl > 0.0
  {
    match a
    case NegInf => NegInf
    case Fin(x) => Fin(Product(x, qscl))
  }

  // ---------------------------------------------------------------- finite sums

  function Sum(f: int -> real, lo: int, hi: int): real
    decreases hi - lo
  {
    if hi <= lo then 0.0 else Sum(f, lo, hi - 1) + f(hi - 1)
  }

  lemma {:induction false} SumSplit(f: int -> real, lo: int, mid: int, hi: int)
    requires lo <= mid <= hi
    ensures Sum(f, lo, hi) == Sum(f, lo, mid) + Sum(f, mid, hi)
    decreases hi - mid
  {
    if mid < hi { SumSplit(f, lo, mid, hi - 1); }
  }

  lemma {:induction false} SumShift(f: int -> real, g: int -> real, lo: int, n: nat)
    requires forall c :: 0 <= c < n ==> f(c) == g(lo + c)
    ensures Sum(f, 0, n) == Sum(g, lo, lo + n)
    decreases n
  {
    if n > 0 {
      SumShift(f, g, lo, n - 1);
      assert f(n - 1) == g(lo + (n - 1));
    }
  }

  lemma {:induction false} SumEqual(f: int -> real, g: int -> real, lo: int, hi: int)
    requires forall c :: lo <= c < hi ==> f(c) == g(c)
    ensures Sum(f, lo, hi) == Sum(g, lo, hi)
    decreases hi - lo
  {
    if lo < hi { SumEqual(f, g, lo, hi - 1); }
  }

  lemma {:induction false} SumScaled(f: int -> real, g: int -> real, k: real, lo: int, hi: int)
    requires forall c :: lo <= c < hi ==> OnScale(f(c), k, g(c))
    ensures OnScale(Sum(f, lo, hi), k, Sum(g, lo, hi))
    decreases hi - lo
  {
    if lo < hi {
      SumScaled(f, g, k, lo, hi - 1);
      AddScaled(Sum(f, lo, hi - 1), f(hi - 1), k, Sum(g, lo, hi - 1), g(hi - 1));
    }
  }

  lemma {:induction false} SumZero(f: int -> real, lo: int, hi: int)
    requires forall c :: lo <= c < hi ==> f(c) == 0.0
    ensures Sum(f, lo, hi) == 0.0
    decreases hi - lo
  {
    if lo < hi { SumZero(f, lo, hi - 1); }
  }

  lemma {:induction false} SumPositive(f: int -> real, lo: int, hi: int)
    requires forall c :: lo <= c < hi ==> f(c) >= 0.0
    ensures Sum(f, lo, hi) >= 0.0
    ensures (exists c :: lo <= c < hi && f(c) > 0.0) <==> Sum(f, lo, hi) > 0.0
    decreases hi - lo
  {
    if lo < hi { SumPositive(f, lo, hi - 1); }
  }

  // ---------------------------------------------------------------- one row

  /** The running maximum of `s[..n]`. */
  function MaxUpTo(s: seq<Ext>, n: nat): Ext
    requires n <= |s|
  {
    if n == 0 then NegInf else ExtMax(MaxUpTo(s, n - 1), s[n - 1])
  }

  /** The next running maximum: never -INF, whatever the tile holds. */
  function NextMax(m: Ext, s: seq<Ext>): (r: Ext)
    ensures r.Fin?
  {
    ExtMax(ExtMax(m, MaxUpTo(s, |s|)), Fin(CLAMP))
  }

  function Probs(e: real -> real, s: seq<Ext>, m: Ext): seq<real>
    requires m.Fin?
  {
    seq(|s|, c requires 0 <= c < |s| => Ex2(e, s[c], m))
  }

  /** The entries of `p` as a function of the column, 0 outside. */
  function Entry(p: seq<real>): int -> real {
    c => if 0 <= c < |p| then p[c] else 0.0
  }

  /** The terms of the product of a row of probabilities with one column of values. */
  function Times(p: seq<real>, v: int -> real): int -> real {
    c => if 0 <= c < |p| then p[c] * v(c) else 0.0
  }

  /** `x`, put on the scale `k`, is `a`. */
  ghost predicate OnScale(x: real, k: real, a: real) { x * k == a }

  /** `x`, kept relative to the running maximum `m`, stands for the total `w`. */
  ghost predicate Carries(e: real -> real, m: Ext, x: real, w: real) {
    match m
    case NegInf => x == 0.0 && w == 0.0
    case Fin(y) => OnScale(x, e(y), w)
  }

  lemma Rescale(e: real -> real, a: Ext, b: Ext)
    requires IsExp2(e) && b.Fin?
    ensures OnScale(Ex2(e, a, b), e(b.v), Weight(e, a))
  {
    if a.Fin? {
      assert Plus(a.v - b.v, b.v) == a.v;
    }
  }

  lemma RescaleTerm(e: real -> real, a: Ext, b: Ext, x: real)
    requires IsExp2(e) && b.Fin?
    ensures OnScale(Ex2(e, a, b) * x, e(b.v), Weight(e, a) * x)
  {
    Rescale(e, a, b);
    ScaleTerm(Ex2(e, a, b), e(b.v), Weight(e, a), x);
  }

  lemma ScaleTerm(p: real, k: real, a: real, x: real)
    requires OnScale(p, k, a)
    ensures OnScale(p * x, k, a * x)
  {
    assert (p * x) * k == (p * k) * x;
  }

  /** Moving a carried value under a new finite maximum keeps what it stands for. */
  lemma RescaleCarried(e: real -> real, m: Ext, x: real, w: real, n: Ext)
    requires IsExp2(e) && n.Fin? && Carries(e, m, x, w)
    ensures OnScale(Ex2(e, m, n) * x, e(n.v), w)
  {
    RescaleTerm(e, m, n, x);
  }

  lemma AddScaled(x: real, y: real, k: real, a: real, b: real)
    requires OnScale(x, k, a) && OnScale(y, k, b)
    ensures OnScale(x + y, k, a + b)
  {
  }

  /** `x` moved under the new maximum, plus `y`. */
  function Rescaled(e: real -> real, m: Ext, n: Ext, x: real, y: real): real
    requires n.Fin?
  {
    Ex2(e, m, n) * x + y
  }

  /** Rescale the old value, add a new one: the totals add up. */
  lemma AddCarried(e: real -> real, m: Ext, x: real, w: real, n: Ext, y: real, u: real, w': real)
    requires IsExp2(e) && n.Fin? && Carries(e, m, x, w) && OnScale(y, e(n.v), u)
    requires w' == w + u
    ensures Carries(e, n, Rescaled(e, m, n, x, y), w')
  {
    RescaleCarried(e, m, x, w, n);
    AddScaled(Ex2(e, m, n) * x, y, e(n.v), w, u);
  }

  /** Names a column, so that the quantifiers below are used only where a proof names one. */
  predicate Column(j: int) { true }

  /** `ws` lists the weights of the scores `s`. */
  ghost predicate WeightsOf(e: real -> real, s: seq<Ext>, ws: int -> real) {
    forall c {:trigger Column(c)} :: 0 <= c < |s| ==> ws(c) == Weight(e, s[c])
  }

  /** `wvs` lists the weights of the scores `s`, each times its value in `v`. */
  ghost predicate WeightedValuesOf(e: real -> real, s: seq<Ext>, v: int -> real, wvs: int -> real) {
    forall c {:trigger Column(c)} :: 0 <= c < |s| ==> wvs(c) == Product(Weight(e, s[c]), v(c))
  }

  /** The probabilities of a tile, put back on the common scale, are its weights. */
  lemma TileTotal(e: real -> real, s: seq<Ext>, n: Ext, ws: int -> real)
    requires IsExp2(e) && n.Fin?
    requires WeightsOf(e, s, ws)
    ensures OnScale(Sum(Entry(Probs(e, s, n)), 0, |s|), e(n.v), Sum(ws, 0, |s|))
  {
    var p := Probs(e, s, n);
    forall c | 0 <= c < |s| ensures OnScale(Entry(p)(c), e(n.v), ws(c)) {
      assert Column(c);
      Rescale(e, s[c], n);
    }
    SumScaled(Entry(p), ws, e(n.v), 0, |s|);
  }

  lemma TileTotalOut(e: real -> real, s: seq<Ext>, n: Ext, v: int -> real, wvs: int -> real)
    requires IsExp2(e) && n.Fin?
    requires WeightedValuesOf(e, s, v, wvs)
    ensures OnScale(Sum(Times(Probs(e, s, n), v), 0, |s|), e(n.v), Sum(wvs, 0, |s|))
  {
    var p := Probs(e, s, n);
    forall c | 0 <= c < |s| ensures OnScale(Times(p, v)(c), e(n.v), wvs(c)) {
      assert Column(c);
      RescaleTerm(e, s[c], n, v(c));
    }
    SumScaled(Times(p, v), wvs, e(n.v), 0, |s|);
  }

  function TileSum(e: real -> real, s: seq<Ext>, n: Ext): real
    requires n.Fin?
  {
    Sum(Entry(Probs(e, s, n)), 0, |s|)
  }

  function TileDot(e: real -> real, s: seq<Ext>, n: Ext, v: int -> real): real
    requires n.Fin?
  {
    Sum(Times(Probs(e, s, n), v), 0, |s|)
  }

  /** One KV tile, denominator: whatever finite value the clamp forces on the new maximum `n`,
      the new `l` stands for everything seen before plus this tile. */
  lemma TileStepSum(e: real -> real, m: Ext, l: real, w: real, s: seq<Ext>, n: Ext, ws: int -> real, w': real)
    requires IsExp2(e) && Carries(e, m, l, w) && n.Fin? && WeightsOf(e, s, ws)
    requires w' == w + Sum(ws, 0, |s|)
    ensures Carries(e, n, Rescaled(e, m, n, l, TileSum(e, s, n)), w')
  {
    TileTotal(e, s, n, ws);
    AddCarried(e, m, l, w, n, TileSum(e, s, n), Sum(ws, 0, |s|), w');
  }

  /** One KV tile, one coordinate of the output accumulator. */
  lemma TileStepOut(e: real -> real, m: Ext, o: real, wv: real, s: seq<Ext>, n: Ext, v: int -> real,
                    wvs: int -> real, wv': real)
    requires IsExp2(e) && Carries(e, m, o, wv) && n.Fin? && WeightedValuesOf(e, s, v, wvs)
    requires wv' == wv + Sum(wvs, 0, |s|)
    ensures Carries(e, n, Rescaled(e, m, n, o, TileDot(e, s, n, v)), wv')
  {
    TileTotalOut(e, s, n, v, wvs);
    AddCarried(e, m, o, wv, n, TileDot(e, s, n, v), Sum(wvs, 0, |s|), wv');
  }

  /** `x` merged with the partial `y`, whose own maximum is `k`, under the new maximum `n`. */
  function MergedValue(e: real -> real, m: Ext, n: Ext, x: real, k: Ext, y: real): real
    requires n.Fin?
  {
    Rescaled(e, m, n, x, Ex2(e, k, n) * y)
  }

  /** Folding one split partial into the running merge adds what the two stand for. */
  lemma MergeStep(e: real -> real, m1: Ext, x1: real, w1: real, m2: Ext, x2: real, w2: real, w': real)
    requires IsExp2(e) && m2.Fin? && Carries(e, m1, x1, w1) && Carries(e, m2, x2, w2)
    requires w' == w1 + w2
    ensures
      var n := ExtMax(m1, m2);
      Carries(e, n, MergedValue(e, m1, n, x1, m2, x2), w')
  {
    var n := ExtMax(m1, m2);
    RescaleCarried(e, m2, x2, w2, n);
    AddCarried(e, m1, x1, w1, n, Ex2(e, m2, n) * x2, w2, w');
  }

  /** The kernel's guarded reciprocal. */
  function Inverse(l: real): real { if l > 0.0 then 1.0 / l else 0.0 }

  /** Normalising cancels the maximum: the quotient depends only on what the triple stands for. */
  lemma Normalise(e: real -> real, m: Ext, l: real, o: real, w: real, wv: real)
    requires IsExp2(e) && Carries(e, m, l, w) && Carries(e, m, o, wv) && w >= 0.0
    ensures Product(o, Inverse(l)) == Product(wv, Inverse(w))
  {
    if m.Fin? {
      var k := e(m.v);
      assert k > 0.0;
      if l > 0.0 {
        ProductPositive(l, k);
        CancelQuotient(o, l, k);
      } else if l < 0.0 {
        ProductNegative(l, k);
        assert false;
      }
    }
  }

  lemma ProductNegative(a: real, b: real)
    requires a < 0.0 && b > 0.0
    ensures a * b < 0.0
  {
  }

  lemma ProductPositive(a: real, b: real)
    requires a > 0.0 && b > 0.0
    ensures a * b > 0.0
  {
  }

  lemma CancelQuotient(o: real, l: real, k: real)
    requires l > 0.0 && k > 0.0
    ensures l * k > 0.0 && o * (1.0 / l) == (o * k) * (1.0 / (l * k))
  {
    ProductPositive(l, k);
    var x, y := o * (1.0 / l), (o * k) * (1.0 / (l * k));
    assert x * l == o by { assert (1.0 / l) * l == 1.0; assert x * l == o * ((1.0 / l) * l); }
    assert y * (l * k) == o * k by {
      var q := 1.0 / (l * k);
      assert q * (l * k) == 1.0;
      assert y * (l * k) == (o * k) * (q * (l * k));
    }
    assert (x - y) * (l * k) == 0.0 by { assert x * (l * k) == (x * l) * k; }
    if x - y > 0.0 { ProductPositive(x - y, l * k); }
    if y - x > 0.0 { ProductPositive(y - x, l * k); assert (y - x) * (l * k) == -((x - y) * (l * k)); }
  }

  // ---------------------------------------------------------------- deferred division

  /** One softmax probability. */
  function Share(w: real, total: real): real { if total > 0.0 then w / total else 0.0 }

  /** `f` accumulates unnormalised weighted values, `g` the same with each weight divided first. */
  ghost predicate QuotientTerms(w: int -> real, rw: int -> real, v: int -> real, f: int -> real, g: int -> real,
                                t: real, n: nat)
  {
    forall j {:trigger Column(j)} :: 0 <= j < n ==>
      w(j) == rw(j) && f(j) == Product(w(j), v(j)) && g(j) == Product(Share(rw(j), t), v(j))
  }

  lemma QuotientTerm(w: real, v: real, t: real)
    requires t > 0.0
    ensures OnScale(w * v, 1.0 / t, Share(w, t) * v)
  {
    assert w / t == w * (1.0 / t);
  }

  /** The sum of `f`, divided once by the sum of `w`. */
  function Normalised(f: int -> real, w: int -> real, n: nat): real {
    Product(Sum(f, 0, n), Inverse(Sum(w, 0, n)))
  }

  /** Dividing once at the end equals dividing every weight by the total. */
  lemma DeferredDivision(w: int -> real, rw: int -> real, v: int -> real, f: int -> real, g: int -> real, n: nat)
    requires Sum(rw, 0, n) > 0.0
    requires QuotientTerms(w, rw, v, f, g, Sum(rw, 0, n), n)
    ensures Sum(g, 0, n) == Normalised(f, w, n)
  {
    var t := Sum(rw, 0, n);
    forall j | 0 <= j < n ensures w(j) == rw(j) && OnScale(f(j), 1.0 / t, g(j)) {
      assert Column(j);
      QuotientTerm(w(j), v(j), t);
    }
    SumEqual(w, rw, 0, n);
    SumScaled(f, g, 1.0 / t, 0, n);
  }
}
