/** The tile loop of `fa_main` for one block: staged tiles, masked scores, online softmax. */
module FaMainTile {
  import opened Softmax
  import opened SplitGeometry
  import opened PagedBatch
  import opened CopyPipeline

  const FOLDED := 64   // rows of a block: 8 query positions times 8 heads

  /** A 64 x 256 tile, row by row. */
  type Tile = t: seq<Vec> | |t| == FOLDED witness seq(FOLDED, r => Zeros())

  /** The geometry of the block of request `b`, split `sp`, first position `i0`. */
  function Geometry(x: Batch, b: nat, splits: nat, sp: nat, i0: nat): Block
    requires x.Valid() && b < x.Requests()
  {
    Block(x.seqk[b], x.QLen(b), splits, sp, i0)
  }

  /** What one block is launched on. */
  datatype Task = Task(x: Batch, e: real -> real, qscl: real, b: nat, splits: nat, sp: nat, i0: nat, kvg: nat) {
    ghost predicate Valid() {
      && x.Valid() && IsExp2(e) && qscl > 0.0 && b < x.Requests() && kvg < KV_HEADS
      && Geometry(x, b, splits, sp, i0).Valid()
    }

    function G(): Block requires x.Valid() && b < x.Requests() { Geometry(x, b, splits, sp, i0) }

    /** The output row that folded row `r` computes (positions past the last one are clamped). */
    function RowOf(r: nat): (w: Row)
      requires Valid() && r < FOLDED
      ensures IsRow(x, w)
    {
      Row(b, G().Position(r), kvg * GROUP + r % 8)
    }
  }

  /** The folded query tile of the prologue. */
  function QTile(k: Task): Tile
    requires k.Valid()
  {
    seq(FOLDED, r requires 0 <= r < FOLDED => k.x.q[Slot(k.x, k.RowOf(r))])
  }

  /** Row `c` of a staged tile: the cache row of its column, or zeros at and after `c_end`. */
  function TileRow(k: Task, cache: seq<Vec>, tile: nat, c: nat): Vec
    requires k.Valid() && (cache == k.x.k || cache == k.x.v) && tile < k.G().NTiles() && c < NTILE
  {
    TilesInside(k.G(), tile);
    if c < Min(NTILE, k.G().CEnd() - (k.G().Start() + tile * NTILE))
    then cache[k.x.CacheRow(k.b, k.G().Start() + tile * NTILE + c, k.kvg)]
    else Zeros()
  }

  /** `issue_kv_tile`: one page of the cache. */
  function KvTile(k: Task, cache: seq<Vec>, tile: nat): Tile
    requires k.Valid() && (cache == k.x.k || cache == k.x.v) && tile < k.G().NTiles()
  {
    seq(NTILE, c requires 0 <= c < NTILE => TileRow(k, cache, tile, c))
  }

  /** The scaled, masked scores of one folded row against one K tile. */
  function TileScores(k: Task, q: Tile, kt: Tile, tile: nat, r: nat): seq<Ext>
    requires k.Valid() && r < FOLDED
  {
    seq(NTILE, c requires 0 <= c < NTILE =>
      Scale(if k.G().Masks(tile, r, c) then NegInf else Fin(Dot(q[r], kt[c], HEAD_DIM)), k.qscl))
  }

  /** Column `d` of a V tile. */
  function ValueColumn(vt: Tile, d: nat): int -> real
    requires d < HEAD_DIM
  {
    c => if 0 <= c < NTILE then vt[c][d] else 0.0
  }

  /** The accumulators of a row stand for its columns in `[lo, hi)`. */
  ghost predicate Accumulated(k: Task, w: Row, lo: int, hi: int, m: Ext, l: real, o: Vec)
    requires k.Valid() && IsRow(k.x, w)
  {
    && Carries(k.e, m, l, Sum(Weights(k.x, k.e, k.qscl, w), lo, hi))
    && forall d :: 0 <= d < HEAD_DIM ==>
      Carries(k.e, m, o[d], Sum(WeightedValues(k.x, k.e, k.qscl, w, d), lo, hi))
  }

  /** `f` shifted to a tile's columns, cut off at the end of the split. */
  function Clipped(f: int -> real, n0: int, end: int): int -> real {
    c => if n0 + c < end then f(n0 + c) else 0.0
  }

  lemma ClippedSum(f: int -> real, n0: int, end: int)
    requires n0 <= end
    ensures Sum(Clipped(f, n0, end), 0, NTILE) == Sum(f, n0, Min(n0 + NTILE, end))
  {
    var n := Min(NTILE, end - n0);
    SumSplit(Clipped(f, n0, end), 0, n, NTILE);
    SumShift(Clipped(f, n0, end), f, n0, n);
    SumZero(Clipped(f, n0, end), n, NTILE);
  }

  /** An unmasked column is a visible column of the split. */
  lemma UnmaskedVisible(k: Task, tile: nat, r: nat, c: nat)
    requires k.Valid() && r < FOLDED && c < NTILE && tile < k.G().NTiles() && !k.G().Masks(tile, r, c)
    ensures
      var j := k.G().Start() + tile * NTILE + c;
      0 <= j < k.G().CEnd() && j < k.x.seqk[k.b] && j < k.G().End() && Visible(k.x, k.RowOf(r), j)
  {
    TilesInside(k.G(), tile);
    MaskExact(k.G(), tile, r, c);
  }

  /** The row of the K (or V) tile that an unmasked column reads is the cache row of that column. */
  lemma UnmaskedColumn(k: Task, cache: seq<Vec>, tile: nat, r: nat, c: nat)
    requires k.Valid() && r < FOLDED && c < NTILE && tile < k.G().NTiles() && !k.G().Masks(tile, r, c)
    requires cache == k.x.k || cache == k.x.v
    ensures
      var j := k.G().Start() + tile * NTILE + c;
      0 <= j < k.x.seqk[k.b] && KvTile(k, cache, tile)[c] == cache[k.x.CacheRow(k.b, j, k.kvg)]
  {
    UnmaskedVisible(k, tile, r, c);
    assert KvTile(k, cache, tile)[c] == TileRow(k, cache, tile, c);
  }

  lemma MaskedColumn(k: Task, tile: nat, r: nat, c: nat)
    requires k.Valid() && r < FOLDED && c < NTILE && tile < k.G().NTiles() && k.G().Masks(tile, r, c)
    ensures
      var j := k.G().Start() + tile * NTILE + c;
      j < k.G().End() ==> !Visible(k.x, k.RowOf(r), j)
  {
    MaskExact(k.G(), tile, r, c);
  }

  // ------------------------------------------------------------------ one row, one tile

  lemma UnmaskedScore(k: Task, tile: nat, r: nat, c: nat)
    requires k.Valid() && r < FOLDED && c < NTILE && tile < k.G().NTiles() && !k.G().Masks(tile, r, c)
    ensures
      var j := k.G().Start() + tile * NTILE + c;
      && 0 <= j < k.x.seqk[k.b]
      && TileScores(k, QTile(k), KvTile(k, k.x.k, tile), tile, r)[c] == Fin(ScaledScore(k.x, k.RowOf(r), j, k.qscl))
  {
    UnmaskedColumn(k, k.x.k, tile, r, c);
    var j := k.G().Start() + tile * NTILE + c;
    assert Dot(QTile(k)[r], KvTile(k, k.x.k, tile)[c], HEAD_DIM) == Score(k.x, k.RowOf(r), j);
  }

  lemma MaskedWeight(k: Task, tile: nat, r: nat, c: nat, w: int -> real)
    requires k.Valid() && r < FOLDED && c < NTILE && tile < k.G().NTiles() && k.G().Masks(tile, r, c)
    requires w == Weights(k.x, k.e, k.qscl, k.RowOf(r))
    ensures TileScores(k, QTile(k), KvTile(k, k.x.k, tile), tile, r)[c] == NegInf
    ensures Clipped(w, k.G().Start() + tile * NTILE, k.G().End())(c) == 0.0
  {
    MaskedColumn(k, tile, r, c);
  }

  lemma UnmaskedWeight(k: Task, tile: nat, r: nat, c: nat, w: int -> real)
    requires k.Valid() && r < FOLDED && c < NTILE && tile < k.G().NTiles() && !k.G().Masks(tile, r, c)
    requires w == Weights(k.x, k.e, k.qscl, k.RowOf(r))
    ensures
      var j := k.G().Start() + tile * NTILE + c;
      && 0 <= j < k.x.seqk[k.b]
      && Clipped(w, k.G().Start() + tile * NTILE, k.G().End())(c) == k.e(ScaledScore(k.x, k.RowOf(r), j, k.qscl))
  {
    UnmaskedVisible(k, tile, r, c);
  }

  /** The weights of a tile's scores are the row's weights, cut off at the end of the split. */
  lemma ScoreWeight(k: Task, tile: nat, r: nat, c: nat, s: seq<Ext>, f: int -> real)
    requires k.Valid() && r < FOLDED && c < NTILE && tile < k.G().NTiles()
    requires s == TileScores(k, QTile(k), KvTile(k, k.x.k, tile), tile, r)
    requires f == Clipped(Weights(k.x, k.e, k.qscl, k.RowOf(r)), k.G().Start() + tile * NTILE, k.G().End())
    ensures Weight(k.e, s[c]) == f(c)
  {
    if k.G().Masks(tile, r, c) {
      MaskedWeight(k, tile, r, c, Weights(k.x, k.e, k.qscl, k.RowOf(r)));
    } else {
      UnmaskedWeight(k, tile, r, c, Weights(k.x, k.e, k.qscl, k.RowOf(r)));
      UnmaskedScore(k, tile, r, c);
    }
  }

  lemma ScoreWeights(k: Task, tile: nat, r: nat, s: seq<Ext>, f: int -> real)
    requires k.Valid() && r < FOLDED && tile < k.G().NTiles()
    requires s == TileScores(k, QTile(k), KvTile(k, k.x.k, tile), tile, r)
    requires f == Clipped(Weights(k.x, k.e, k.qscl, k.RowOf(r)), k.G().Start() + tile * NTILE, k.G().End())
    ensures WeightsOf(k.e, s, f)
  {
    forall c | 0 <= c < NTILE ensures f(c) == Weight(k.e, s[c]) { ScoreWeight(k, tile, r, c, s, f); }
  }

  /** The same for the weighted values, coordinate by coordinate. */
  lemma UnmaskedValue(k: Task, tile: nat, r: nat, d: nat, c: nat)
    requires k.Valid() && r < FOLDED && c < NTILE && d < HEAD_DIM && tile < k.G().NTiles()
    requires !k.G().Masks(tile, r, c)
    ensures
      var j := k.G().Start() + tile * NTILE + c;
      0 <= j < k.G().End() && ValueColumn(KvTile(k, k.x.v, tile), d)(c) == Values(k.x, k.RowOf(r), d)(j)
  {
    UnmaskedVisible(k, tile, r, c);
    UnmaskedColumn(k, k.x.v, tile, r, c);
  }

  lemma ZeroProduct(x: real, v: real)
    requires x == 0.0
    ensures Product(x, v) == 0.0
  {
  }

  /** Pointwise: equal weights and equal values give equal weighted values. */
  lemma SameProduct(w: int -> real, vals: int -> real, wv: int -> real, j: int, end: int, weight: real, value: real)
    requires j < end ==> wv(j) == Product(w(j), vals(j))
    requires weight == if j < end then w(j) else 0.0
    requires weight == 0.0 || (j < end && value == vals(j))
    ensures (if j < end then wv(j) else 0.0) == Product(weight, value)
  {
    if weight == 0.0 {
      ZeroProduct(weight, value);
      if j < end { ZeroProduct(w(j), vals(j)); }
    }
  }

  /** What a column's weight and value are, in terms of the row's. */
  lemma ScoreFacts(k: Task, tile: nat, r: nat, d: nat, c: nat, s: seq<Ext>)
    requires k.Valid() && r < FOLDED && d < HEAD_DIM && tile < k.G().NTiles() && c < NTILE
    requires s == TileScores(k, QTile(k), KvTile(k, k.x.k, tile), tile, r)
    ensures
      var j, end, weight := k.G().Start() + tile * NTILE + c, k.G().End(), Weight(k.e, s[c]);
      && weight == (if j < end then Weights(k.x, k.e, k.qscl, k.RowOf(r))(j) else 0.0)
      && (weight == 0.0 || (j < end && ValueColumn(KvTile(k, k.x.v, tile), d)(c) == Values(k.x, k.RowOf(r), d)(j)))
  {
    var n0, w := k.G().Start() + tile * NTILE, Weights(k.x, k.e, k.qscl, k.RowOf(r));
    ScoreWeight(k, tile, r, c, s, Clipped(w, n0, k.G().End()));
    if k.G().Masks(tile, r, c) {
      MaskedWeight(k, tile, r, c, w);
    } else {
      UnmaskedValue(k, tile, r, d, c);
    }
  }

  lemma ScoreProduct(k: Task, tile: nat, r: nat, d: nat, c: nat, s: seq<Ext>, v: int -> real, f: int -> real)
    requires k.Valid() && r < FOLDED && d < HEAD_DIM && tile < k.G().NTiles() && c < NTILE
    requires s == TileScores(k, QTile(k), KvTile(k, k.x.k, tile), tile, r)
    requires v == ValueColumn(KvTile(k, k.x.v, tile), d)
    requires f == Clipped(WeightedValues(k.x, k.e, k.qscl, k.RowOf(r), d), k.G().Start() + tile * NTILE, k.G().End())
    ensures f(c) == Product(Weight(k.e, s[c]), v(c))
  {
    ScoreFacts(k, tile, r, d, c, s);
    SameProduct(Weights(k.x, k.e, k.qscl, k.RowOf(r)), Values(k.x, k.RowOf(r), d),
                WeightedValues(k.x, k.e, k.qscl, k.RowOf(r), d),
                k.G().Start() + tile * NTILE + c, k.G().End(), Weight(k.e, s[c]), v(c));
  }

  lemma ScoreValues(k: Task, tile: nat, r: nat, d: nat, s: seq<Ext>, v: int -> real, f: int -> real)
    requires k.Valid() && r < FOLDED && d < HEAD_DIM && tile < k.G().NTiles()
    requires s == TileScores(k, QTile(k), KvTile(k, k.x.k, tile), tile, r)
    requires v == ValueColumn(KvTile(k, k.x.v, tile), d)
    requires f == Clipped(WeightedValues(k.x, k.e, k.qscl, k.RowOf(r), d), k.G().Start() + tile * NTILE, k.G().End())
    ensures WeightedValuesOf(k.e, s, v, f)
  {
    forall c | 0 <= c < NTILE ensures f(c) == Product(Weight(k.e, s[c]), v(c)) {
      ScoreProduct(k, tile, r, d, c, s, v, f);
    }
  }

  /** Consuming one more tile extends a clipped range sum. */
  lemma RangeStep(f: int -> real, start: int, n0: int, end: int)
    requires start <= n0 <= end
    ensures Sum(f, start, Min(n0 + NTILE, end)) == Sum(f, start, n0) + Sum(Clipped(f, n0, end), 0, NTILE)
  {
    ClippedSum(f, n0, end);
    SumSplit(f, start, n0, Min(n0 + NTILE, end));
  }

  /** The accumulators of a row after one tile, as the loop body computes them. */
  function NextL(e: real -> real, m: Ext, l: real, s: seq<Ext>): real {
    Rescaled(e, m, NextMax(m, s), l, TileSum(e, s, NextMax(m, s)))
  }

  function NextO(e: real -> real, m: Ext, o: real, s: seq<Ext>, v: int -> real): real {
    Rescaled(e, m, NextMax(m, s), o, TileDot(e, s, NextMax(m, s), v))
  }

  /** `O = O * alpha + P . V` for one folded row. */
  function OutRow(e: real -> real, m: Ext, o: Vec, s: seq<Ext>, vt: Tile): Vec {
    seq(HEAD_DIM, d requires 0 <= d < HEAD_DIM => NextO(e, m, o[d], s, ValueColumn(vt, d)))
  }

  /** One tile of any row whose weights are `f`: the denominator. */
  lemma AnyDenominator(e: real -> real, f: int -> real, start: int, n0: int, end: int, s: seq<Ext>, m: Ext, l: real)
    requires IsExp2(e) && start <= n0 <= end && |s| == NTILE
    requires WeightsOf(e, s, Clipped(f, n0, end)) && Carries(e, m, l, Sum(f, start, n0))
    ensures Carries(e, NextMax(m, s), NextL(e, m, l, s), Sum(f, start, Min(n0 + NTILE, end)))
  {
    RangeStep(f, start, n0, end);
    TileStepSum(e, m, l, Sum(f, start, n0), s, NextMax(m, s), Clipped(f, n0, end),
                Sum(f, start, Min(n0 + NTILE, end)));
  }

  /** One tile of any row whose weighted values are `f`: one output coordinate. */
  lemma AnyCoordinate(e: real -> real, f: int -> real, start: int, n0: int, end: int, s: seq<Ext>, v: int -> real,
                      m: Ext, o: real)
    requires IsExp2(e) && start <= n0 <= end && |s| == NTILE
    requires WeightedValuesOf(e, s, v, Clipped(f, n0, end)) && Carries(e, m, o, Sum(f, start, n0))
    ensures Carries(e, NextMax(m, s), NextO(e, m, o, s, v), Sum(f, start, Min(n0 + NTILE, end)))
  {
    RangeStep(f, start, n0, end);
    TileStepOut(e, m, o, Sum(f, start, n0), s, NextMax(m, s), v, Clipped(f, n0, end),
                Sum(f, start, Min(n0 + NTILE, end)));
  }

  lemma RowStepL(k: Task, tile: nat, r: nat, n0: nat, m: Ext, l: real, s: seq<Ext>)
    requires k.Valid() && r < FOLDED && tile < k.G().NTiles() && n0 == k.G().Start() + tile * NTILE
    requires s == TileScores(k, QTile(k), KvTile(k, k.x.k, tile), tile, r)
    requires Carries(k.e, m, l, Sum(Weights(k.x, k.e, k.qscl, k.RowOf(r)), k.G().Start(), n0))
    ensures Carries(k.e, NextMax(m, s), NextL(k.e, m, l, s),
                    Sum(Weights(k.x, k.e, k.qscl, k.RowOf(r)), k.G().Start(), Min(n0 + NTILE, k.G().End())))
  {
    TilesInside(k.G(), tile);
    var f := Weights(k.x, k.e, k.qscl, k.RowOf(r));
    ScoreWeights(k, tile, r, s, Clipped(f, n0, k.G().End()));
    AnyDenominator(k.e, f, k.G().Start(), n0, k.G().End(), s, m, l);
  }

  lemma RowStepO(k: Task, tile: nat, r: nat, d: nat, n0: nat, m: Ext, o: Vec, s: seq<Ext>, vt: Tile)
    requires k.Valid() && r < FOLDED && d < HEAD_DIM && tile < k.G().NTiles() && n0 == k.G().Start() + tile * NTILE
    requires s == TileScores(k, QTile(k), KvTile(k, k.x.k, tile), tile, r) && vt == KvTile(k, k.x.v, tile)
    requires Carries(k.e, m, o[d], Sum(WeightedValues(k.x, k.e, k.qscl, k.RowOf(r), d), k.G().Start(), n0))
    ensures Carries(k.e, NextMax(m, s), NextO(k.e, m, o[d], s, ValueColumn(vt, d)),
                    Sum(WeightedValues(k.x, k.e, k.qscl, k.RowOf(r), d), k.G().Start(), Min(n0 + NTILE, k.G().End())))
  {
    TilesInside(k.G(), tile);
    var f := WeightedValues(k.x, k.e, k.qscl, k.RowOf(r), d);
    ScoreValues(k, tile, r, d, s, ValueColumn(vt, d), Clipped(f, n0, k.G().End()));
    AnyCoordinate(k.e, f, k.G().Start(), n0, k.G().End(), s, ValueColumn(vt, d), m, o[d]);
  }

  /** After a tile a row's triple stands for exactly the visible columns seen so far. */
  lemma RowStep(k: Task, tile: nat, r: nat, n0: nat, m: Ext, l: real, o: Vec, s: seq<Ext>, vt: Tile)
    requires k.Valid() && r < FOLDED && tile < k.G().NTiles() && n0 == k.G().Start() + tile * NTILE
    requires s == TileScores(k, QTile(k), KvTile(k, k.x.k, tile), tile, r) && vt == KvTile(k, k.x.v, tile)
    requires Accumulated(k, k.RowOf(r), k.G().Start(), n0, m, l, o)
    ensures Accumulated(k, k.RowOf(r), k.G().Start(), Min(n0 + NTILE, k.G().End()),
                        NextMax(m, s), NextL(k.e, m, l, s), OutRow(k.e, m, o, s, vt))
  {
    RowStepL(k, tile, r, n0, m, l, s);
    forall d | 0 <= d < HEAD_DIM
      ensures Carries(k.e, NextMax(m, s), NextO(k.e, m, o[d], s, ValueColumn(vt, d)),
                      Sum(WeightedValues(k.x, k.e, k.qscl, k.RowOf(r), d), k.G().Start(), Min(n0 + NTILE, k.G().End())))
    {
      RowStepO(k, tile, r, d, n0, m, o, s, vt);
    }
  }

  /** Columns of the split past the last tile are invisible, so they add nothing. */
  lemma InvisibleRest(k: Task, r: nat, pos: nat)
    requires k.Valid() && r < FOLDED && k.G().CEnd() <= pos <= k.G().End()
    ensures Sum(Weights(k.x, k.e, k.qscl, k.RowOf(r)), pos, k.G().End()) == 0.0
    ensures forall d :: 0 <= d < HEAD_DIM ==>
      Sum(WeightedValues(k.x, k.e, k.qscl, k.RowOf(r), d), pos, k.G().End()) == 0.0
  {
    var w := Weights(k.x, k.e, k.qscl, k.RowOf(r));
    forall j | pos <= j < k.G().End() ensures w(j) == 0.0 { BeyondEnd(k.G(), r, j); }
    SumZero(w, pos, k.G().End());
    forall d | 0 <= d < HEAD_DIM
      ensures Sum(WeightedValues(k.x, k.e, k.qscl, k.RowOf(r), d), pos, k.G().End()) == 0.0
    {
      SumZero(WeightedValues(k.x, k.e, k.qscl, k.RowOf(r), d), pos, k.G().End());
    }
  }

  lemma FinishRow(k: Task, r: nat, start: nat, pos: nat, m: Ext, l: real, o: Vec)
    requires k.Valid() && r < FOLDED && start <= pos && k.G().CEnd() <= pos <= k.G().End()
    requires Accumulated(k, k.RowOf(r), start, pos, m, l, o)
    ensures Accumulated(k, k.RowOf(r), start, k.G().End(), m, l, o)
  {
    InvisibleRest(k, r, pos);
    SumSplit(Weights(k.x, k.e, k.qscl, k.RowOf(r)), start, pos, k.G().End());
    forall d | 0 <= d < HEAD_DIM
      ensures Carries(k.e, m, o[d], Sum(WeightedValues(k.x, k.e, k.qscl, k.RowOf(r), d), start, k.G().End()))
    {
      SumSplit(WeightedValues(k.x, k.e, k.qscl, k.RowOf(r), d), start, pos, k.G().End());
    }
  }

  /** What the copy engine holds when tile `tile` is about to be multiplied. */
  ghost predicate KeyStaged(k: Task, tile: nat, cp: Copies<Tile>)
    requires k.Valid() && tile < k.G().NTiles()
  {
    && cp.q == Holds(QTile(k)) && cp.k == Holds(KvTile(k, k.x.k, tile))
    && cp.flight == [Copy(DstV, KvTile(k, k.x.v, tile))]
  }

  /** What it holds when the V tile is about to be multiplied. */
  ghost predicate ValueStaged(k: Task, tile: nat, cp: Copies<Tile>)
    requires k.Valid() && tile < k.G().NTiles()
  {
    && cp.q == Holds(QTile(k)) && cp.v == Holds(KvTile(k, k.x.v, tile))
    && (tile + 1 < k.G().NTiles() ==> cp.flight == [Copy(DstK, KvTile(k, k.x.k, tile + 1))])
    && |cp.flight| == 1
  }

  /** The two prefetches of the loop body: the next tile if there is one, else an empty commit. */
  function Prefetch(k: Task, cp: Copies<Tile>, dst: Dst, cache: seq<Vec>, tile: nat): Copies<Tile>
    requires k.Valid() && (cache == k.x.k || cache == k.x.v) && tile < k.G().NTiles()
  {
    TilesInside(k.G(), tile);
    if k.G().Start() + tile * NTILE + NTILE < k.G().CEnd()
    then cp.Issue(dst, KvTile(k, cache, tile + 1))
    else cp.Commit()
  }

  /** The tile that copy number `t` into a buffer brings. */
  function TileOf(k: Task, dst: Dst, t: nat): Tile
    requires k.Valid()
  {
    if dst == DstQ then QTile(k)
    else if t >= k.G().NTiles() then seq(FOLDED, _ => Zeros())
    else KvTile(k, if dst == DstK then k.x.k else k.x.v, t)
  }

  function TileBuffer(k: Task, dst: Dst, b: Buffer<nat>): Buffer<Tile>
    requires k.Valid()
  {
    if b.Torn? then Torn else Holds(TileOf(k, dst, b.tile))
  }

  function TileGroup(k: Task, g: Group<nat>): Group<Tile>
    requires k.Valid()
  {
    if g.Empty? then Empty else Copy(g.dst, TileOf(k, g.dst, g.tile))
  }

  /** The copy engine on tiles, given the one on tile numbers. */
  function Staged(k: Task, c: Copies<nat>): Copies<Tile>
    requires k.Valid()
  {
    Copies(TileBuffer(k, DstQ, c.q), TileBuffer(k, DstK, c.k), TileBuffer(k, DstV, c.v),
           seq(|c.flight|, i requires 0 <= i < |c.flight| => TileGroup(k, c.flight[i])))
  }

  lemma StagedOldest(k: Task, c: Copies<nat>)
    requires k.Valid() && c.flight != []
    ensures Staged(k, c.CompleteOldest()) == Staged(k, c).CompleteOldest()
  {
    assert Staged(k, c.CompleteOldest()).flight == Staged(k, c).CompleteOldest().flight;
  }

  lemma {:induction false} StagedWait(k: Task, c: Copies<nat>)
    requires k.Valid()
    ensures Staged(k, c.Wait1()) == Staged(k, c).Wait1()
    decreases |c.flight|
  {
    if |c.flight| > 1 {
      StagedOldest(k, c);
      StagedWait(k, c.CompleteOldest());
    }
  }

  lemma StagedFetch(k: Task, c: Copies<nat>, dst: Dst, next: Group<nat>)
    requires k.Valid() && (next.Copy? ==> next.dst == dst)
    ensures Staged(k, Fetch(c, dst, next)) == Fetch(Staged(k, c), dst, TileGroup(k, next))
  {
    assert Staged(k, Fetch(c, dst, next)).flight == Fetch(Staged(k, c), dst, TileGroup(k, next)).flight;
  }

  /** The engine is where the first `pc` instructions of the block's program leave it. */
  ghost predicate InProgram(k: Task, pc: nat, cp: Copies<Tile>)
    requires k.Valid()
  {
    pc <= Length(k.G().NTiles()) && cp == Staged(k, After(k.G().NTiles(), pc))
  }

  /** The two prefetches of the loop body. */
  lemma PrefetchIs(k: Task, cp: Copies<Tile>, tile: nat)
    requires k.Valid() && tile < k.G().NTiles()
    ensures Prefetch(k, cp, DstK, k.x.k, tile) == Fetch(cp, DstK, TileGroup(k, NextGroup(k.G().NTiles(), DstK, tile)))
    ensures Prefetch(k, cp, DstV, k.x.v, tile) == Fetch(cp, DstV, TileGroup(k, NextGroup(k.G().NTiles(), DstV, tile)))
  {
    TilesInside(k.G(), tile);
  }

  lemma PrologueStaged(k: Task)
    requires k.Valid() && k.G().NTiles() > 0
    ensures InProgram(k, 3, Start<Tile>().Issue(DstQ, QTile(k)).Issue(DstK, KvTile(k, k.x.k, 0))
                             .Issue(DstV, KvTile(k, k.x.v, 0)))
  {
    var n := k.G().NTiles();
    var c0 := Start<nat>();
    var c1 := c0.Issue(DstQ, 0);
    var c2 := c1.Issue(DstK, 0);
    StagedFetch(k, c0, DstQ, Copy(DstQ, 0));
    StagedFetch(k, c1, DstK, Copy(DstK, 0));
    StagedFetch(k, c2, DstV, Copy(DstV, 0));
    ProloguePrefix(n);
    assert Staged(k, c0) == Start<Tile>();
  }

  lemma HeadStaged(k: Task, tile: nat, cp: Copies<Tile>)
    requires k.Valid() && tile < k.G().NTiles() && InProgram(k, 3 + 10 * tile, cp)
    ensures InProgram(k, 3 + 10 * tile + 2, cp.Wait1())
  {
    HeadSteps(k.G().NTiles(), tile);
    StagedWait(k, After(k.G().NTiles(), 3 + 10 * tile));
  }

  /** From the closed form of the program: the K tile is there when it is read. */
  lemma KeyIsStaged(k: Task, tile: nat, cp: Copies<Tile>)
    requires k.Valid() && tile < k.G().NTiles() && InProgram(k, 3 + 10 * tile + 2, cp)
    ensures KeyStaged(k, tile, cp)
  {
    RunReaches(k.G().NTiles(), tile, 2);
    var c := After(k.G().NTiles(), 3 + 10 * tile + 2);
    assert cp.flight == [TileGroup(k, c.flight[0])];
  }

  lemma ValueIsStaged(k: Task, tile: nat, cp: Copies<Tile>)
    requires k.Valid() && tile < k.G().NTiles() && InProgram(k, 3 + 10 * tile + 7, cp)
    ensures ValueStaged(k, tile, cp)
  {
    RunReaches(k.G().NTiles(), tile, 7);
    var c := After(k.G().NTiles(), 3 + 10 * tile + 7);
    assert cp.flight == [TileGroup(k, c.flight[0])];
  }

  lemma MiddleStaged(k: Task, tile: nat, cp: Copies<Tile>)
    requires k.Valid() && tile < k.G().NTiles() && InProgram(k, 3 + 10 * tile + 2, cp)
    ensures InProgram(k, 3 + 10 * tile + 7, Prefetch(k, cp, DstK, k.x.k, tile).Wait1())
  {
    var n := k.G().NTiles();
    var c, next := After(n, 3 + 10 * tile + 2), NextGroup(n, DstK, tile);
    PrefetchIs(k, cp, tile);
    StagedFetch(k, c, DstK, next);
    StagedWait(k, Fetch(c, DstK, next));
    MiddleSteps(n, tile);
  }

  lemma TailStaged(k: Task, tile: nat, cp: Copies<Tile>)
    requires k.Valid() && tile < k.G().NTiles() && InProgram(k, 3 + 10 * tile + 7, cp)
    ensures InProgram(k, 3 + 10 * (tile + 1), Prefetch(k, cp, DstV, k.x.v, tile))
  {
    var n := k.G().NTiles();
    PrefetchIs(k, cp, tile);
    StagedFetch(k, After(n, 3 + 10 * tile + 7), DstV, NextGroup(n, DstV, tile));
    TailSteps(n, tile);
  }

  /** Where the split has got to when `tile` tiles are done. */
  function Reached(g: Block, tile: nat): nat
    requires g.Valid()
  {
    Min(g.Start() + tile * NTILE, g.End())
  }

  ghost predicate AllAccumulated(k: Task, hi: nat, m: seq<Ext>, l: seq<real>, o: seq<Vec>)
    requires k.Valid()
  {
    && |m| == FOLDED && |l| == FOLDED && |o| == FOLDED
    && forall r :: 0 <= r < FOLDED ==> Accumulated(k, k.RowOf(r), k.G().Start(), hi, m[r], l[r], o[r])
  }

  /** The loop body, for one row. */
  ghost predicate RowUpdated(k: Task, tile: nat, r: nat, m: Ext, l: real, o: Vec, s: seq<Ext>, m': Ext, l': real,
                             o': Vec)
    requires k.Valid() && r < FOLDED && tile < k.G().NTiles()
  {
    && s == TileScores(k, QTile(k), KvTile(k, k.x.k, tile), tile, r)
    && m' == NextMax(m, s) && l' == NextL(k.e, m, l, s)
    && o' == OutRow(k.e, m, o, s, KvTile(k, k.x.v, tile))
  }

  lemma RowDone(k: Task, tile: nat, r: nat, m: Ext, l: real, o: Vec, s: seq<Ext>, m': Ext, l': real, o': Vec)
    requires k.Valid() && r < FOLDED && tile < k.G().NTiles() && RowUpdated(k, tile, r, m, l, o, s, m', l', o')
    requires Accumulated(k, k.RowOf(r), k.G().Start(), Reached(k.G(), tile), m, l, o)
    ensures Accumulated(k, k.RowOf(r), k.G().Start(), Reached(k.G(), tile + 1), m', l', o')
  {
    TilesInside(k.G(), tile);
    var n0 := Reached(k.G(), tile);
    assert n0 == k.G().Start() + tile * NTILE;
    assert Reached(k.G(), tile + 1) == Min(n0 + NTILE, k.G().End());
    RowStep(k, tile, r, n0, m, l, o, s, KvTile(k, k.x.v, tile));
  }

  lemma TileDone(k: Task, tile: nat, m: seq<Ext>, l: seq<real>, o: seq<Vec>, s: seq<seq<Ext>>,
                 m': seq<Ext>, l': seq<real>, o': seq<Vec>)
    requires k.Valid() && tile < k.G().NTiles() && AllAccumulated(k, Reached(k.G(), tile), m, l, o)
    requires |s| == FOLDED && |m'| == FOLDED && |l'| == FOLDED && |o'| == FOLDED
    requires forall r :: 0 <= r < FOLDED ==> RowUpdated(k, tile, r, m[r], l[r], o[r], s[r], m'[r], l'[r], o'[r])
    ensures AllAccumulated(k, Reached(k.G(), tile + 1), m', l', o')
  {
    forall r | 0 <= r < FOLDED
      ensures Accumulated(k, k.RowOf(r), k.G().Start(), Reached(k.G(), tile + 1), m'[r], l'[r], o'[r])
    {
      RowDone(k, tile, r, m[r], l[r], o[r], s[r], m'[r], l'[r], o'[r]);
    }
  }

  lemma NothingYet(k: Task, m: seq<Ext>, l: seq<real>, o: seq<Vec>)
    requires k.Valid() && k.G().NTiles() > 0
    requires |m| == FOLDED && |l| == FOLDED && |o| == FOLDED
    requires forall r :: 0 <= r < FOLDED ==> m[r] == NegInf && l[r] == 0.0 && o[r] == Zeros()
    ensures AllAccumulated(k, Reached(k.G(), 0), m, l, o)
  {
    TilesInside(k.G(), 0);
  }

  lemma AllDone(k: Task, m: seq<Ext>, l: seq<real>, o: seq<Vec>)
    requires k.Valid() && k.G().NTiles() > 0 && AllAccumulated(k, Reached(k.G(), k.G().NTiles()), m, l, o)
    ensures AllAccumulated(k, k.G().End(), m, l, o)
  {
    var pos := Reached(k.G(), k.G().NTiles());
    TilesInside(k.G(), 0);
    TilesReach(k.G());
    forall r | 0 <= r < FOLDED
      ensures Accumulated(k, k.RowOf(r), k.G().Start(), k.G().End(), m[r], l[r], o[r])
    {
      FinishRow(k, r, k.G().Start(), pos, m[r], l[r], o[r]);
    }
  }

  /** Where in the program the head of the loop is; before tile 0 the wait and the barrier have already
      happened in the prologue. */
  function HeadOf(tile: nat): nat { if tile == 0 then 5 else 3 + 10 * tile }

  /** One iteration of the tile loop, in step with the block's copy program. Each buffer is read only
      where that program has a whole tile in it. */
  method TileIteration(k: Task, tile: nat, cp0: Copies<Tile>, m: seq<Ext>, l: seq<real>, o: seq<Vec>)
    returns (cp: Copies<Tile>, m': seq<Ext>, l': seq<real>, o': seq<Vec>)
    requires k.Valid() && tile < k.G().NTiles() && InProgram(k, HeadOf(tile), cp0)
    requires AllAccumulated(k, Reached(k.G(), tile), m, l, o)
    ensures AllAccumulated(k, Reached(k.G(), tile + 1), m', l', o')
    ensures InProgram(k, HeadOf(tile + 1), cp)
  {
    cp := cp0;
    if tile > 0 {
      HeadStaged(k, tile, cp);
      cp := cp.Wait1();
    }
    KeyIsStaged(k, tile, cp);
    var qt, kt := cp.q.tile, cp.k.tile;
    var s := seq(FOLDED, r requires 0 <= r < FOLDED => TileScores(k, qt, kt, tile, r));
    m' := seq(FOLDED, r requires 0 <= r < FOLDED => NextMax(m[r], s[r]));
    l' := seq(FOLDED, r requires 0 <= r < FOLDED => NextL(k.e, m[r], l[r], s[r]));
    MiddleStaged(k, tile, cp);
    cp := Prefetch(k, cp, DstK, k.x.k, tile).Wait1();
    ValueIsStaged(k, tile, cp);
    var vt := cp.v.tile;
    o' := seq(FOLDED, r requires 0 <= r < FOLDED => OutRow(k.e, m[r], o[r], s[r], vt));
    TileDone(k, tile, m, l, o, s, m', l', o');
    TailStaged(k, tile, cp);
    cp := Prefetch(k, cp, DstV, k.x.v, tile);
  }

  /** The copies and the wait before the loop. */
  method Prologue(k: Task) returns (cp: Copies<Tile>)
    requires k.Valid() && k.G().NTiles() > 0
    ensures InProgram(k, HeadOf(0), cp)
  {
    cp := Start<Tile>().Issue(DstQ, QTile(k)).Issue(DstK, KvTile(k, k.x.k, 0)).Issue(DstV, KvTile(k, k.x.v, 0));
    PrologueStaged(k);
    HeadStaged(k, 0, cp);
    cp := cp.Wait1();
  }

  /** The body of `fa_main` from the prologue to the end of the tile loop. */
  method Accumulate(k: Task) returns (m: seq<Ext>, l: seq<real>, o: seq<Vec>)
    requires k.Valid() && k.G().NTiles() > 0
    ensures AllAccumulated(k, k.G().End(), m, l, o)
  {
    var cp := Prologue(k);
    m, l, o := seq(FOLDED, _ => NegInf), seq(FOLDED, _ => 0.0), seq(FOLDED, _ => Zeros());
    NothingYet(k, m, l, o);
    var tile := 0;
    while tile < k.G().NTiles()
      invariant 0 <= tile <= k.G().NTiles()
      invariant AllAccumulated(k, Reached(k.G(), tile), m, l, o)
      invariant InProgram(k, HeadOf(tile), cp)
    {
      cp, m, l, o := TileIteration(k, tile, cp, m, l, o);
      tile := tile + 1;
    }
    AllDone(k, m, l, o);
  }

  lemma NothingVisible(k: Task, r: nat, j: int)
    requires k.Valid() && r < FOLDED && j > k.G().Limit(r)
    ensures Weights(k.x, k.e, k.qscl, k.RowOf(r))(j) == 0.0
    ensures forall d :: 0 <= d < HEAD_DIM ==> WeightedValues(k.x, k.e, k.qscl, k.RowOf(r), d)(j) == 0.0
  {
  }

  /** A row whose causal limit lies before its split ends with denominator zero and accumulator zero,
      whatever value the clamp has given its maximum: its partial is neutral in the merge. */
  lemma WhollyMaskedRow(k: Task, r: nat, m: Ext, l: real, o: Vec)
    requires k.Valid() && r < FOLDED && k.G().Limit(r) < k.G().Start() <= k.G().End()
    requires Accumulated(k, k.RowOf(r), k.G().Start(), k.G().End(), m, l, o)
    ensures l == 0.0 && forall d :: 0 <= d < HEAD_DIM ==> o[d] == 0.0
  {
    var start, end := k.G().Start(), k.G().End();
    forall j | start <= j < end
      ensures Weights(k.x, k.e, k.qscl, k.RowOf(r))(j) == 0.0
      ensures forall d :: 0 <= d < HEAD_DIM ==> WeightedValues(k.x, k.e, k.qscl, k.RowOf(r), d)(j) == 0.0
    {
      NothingVisible(k, r, j);
    }
    SumZero(Weights(k.x, k.e, k.qscl, k.RowOf(r)), start, end);
    CarriesNothing(k.e, m, l);
    forall d | 0 <= d < HEAD_DIM ensures o[d] == 0.0 {
      SumZero(WeightedValues(k.x, k.e, k.qscl, k.RowOf(r), d), start, end);
      CarriesNothing(k.e, m, o[d]);
    }
  }

  lemma CarriesNothing(e: real -> real, m: Ext, x: real)
    requires IsExp2(e) && Carries(e, m, x, 0.0)
    ensures x == 0.0
  {
    assert m.Fin? ==> e(m.v) != 0.0;
  }
}
