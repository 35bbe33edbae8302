/** The inputs of the attention operator and its 20-line reference implementation. */
module PagedBatch {
  import opened Softmax
  import opened SplitGeometry

  const HEADS := 16
  const KV_HEADS := 2
  const GROUP := 8
  const HEAD_DIM := 256

  /** One head's vector. */
  type Vec = v: seq<real> | |v| == HEAD_DIM witness seq(HEAD_DIM, d => 0.0)

  /** `q` is indexed by slot * HEADS + head; a cache by (page * NTILE + row) * KV_HEADS + kv head. */
  datatype Batch = Batch(
    q: seq<Vec>, k: seq<Vec>, v: seq<Vec>,
    cuq: seq<nat>, seqk: seq<nat>, table: seq<seq<nat>>, slots: nat)
  {
    function Requests(): nat { |seqk| }

    predicate Request(b: nat) { b < |seqk| && b + 1 < |cuq| }

    function QLen(b: nat): int requires Request(b) { cuq[b + 1] as int - cuq[b] as int }

    function Active(): nat requires |cuq| > 0 { cuq[|cuq| - 1] }

    /** The operator's contract: prefix sums of the query lengths that fit the slots, and a page
        table whose pages exist for every column in use. */
    ghost predicate Valid() {
      && |seqk| >= 1 && |cuq| == |seqk| + 1 && |table| == |seqk|
      && cuq[0] == 0 && Active() <= slots
      && (forall b, c :: 0 <= b <= c < |cuq| ==> cuq[b] <= cuq[c])
      && |q| == slots * HEADS && |k| == |v|
      && (forall b :: 0 <= b < |seqk| ==> Pages(seqk[b]) <= |table[b]|)
      && (forall b, p :: 0 <= b < |seqk| && 0 <= p < Pages(seqk[b]) ==> PageExists(b, p))
    }

    predicate PageExists(b: nat, p: nat) {
      b < |table| && p < |table[b]| && (table[b][p] + 1) * NTILE * KV_HEADS <= |k|
    }

    /** The cache row holding KV column `j` of request `b` for one KV head. */
    function CacheRow(b: nat, j: nat, kvh: nat): (r: nat)
      requires Valid() && b < |seqk| && j < seqk[b] && kvh < KV_HEADS
      ensures r < |k|
    {
      assert j / NTILE < Pages(seqk[b]) && PageExists(b, j / NTILE);
      (table[b][j / NTILE] * NTILE + j % NTILE) * KV_HEADS + kvh
    }
  }

  /** A row of the output: query position `i` of request `b`, query head `h`. */
  datatype Row = Row(b: nat, i: nat, h: nat)

  ghost predicate IsRow(x: Batch, r: Row) {
    x.Valid() && r.b < x.Requests() && r.i < x.QLen(r.b) && r.h < HEADS
  }

  function Dot(a: Vec, b: Vec, n: nat): real
    requires n <= |a| && n <= |b|
  {
    if n == 0 then 0.0 else Dot(a, b, n - 1) + a[n - 1] * b[n - 1]
  }

  function Slot(x: Batch, r: Row): (g: nat)
    requires IsRow(x, r)
    ensures g < x.slots * HEADS
  {
    (x.cuq[r.b] + r.i) * HEADS + r.h
  }

  /** The raw query-key product. */
  function Score(x: Batch, r: Row, j: nat): real
    requires IsRow(x, r) && j < x.seqk[r.b]
  {
    Dot(x.q[Slot(x, r)], x.k[x.CacheRow(r.b, j, r.h / GROUP)], HEAD_DIM)
  }

  /** Bottom-right causal alignment: the last column position `i` may see. */
  function CausalLimit(x: Batch, r: Row): int
    requires IsRow(x, r)
  {
    x.seqk[r.b] - x.QLen(r.b) + r.i
  }

  predicate Visible(x: Batch, r: Row, j: int)
    requires IsRow(x, r)
  {
    0 <= j < x.seqk[r.b] && j <= CausalLimit(x, r)
  }

  function ScaledScore(x: Batch, r: Row, j: nat, scale: real): real
    requires IsRow(x, r) && j < x.seqk[r.b]
  {
    Product(Score(x, r, j), scale)
  }

  /** Softmax weight of column `j` with scores scaled by `scale` in the log2 domain. */
  function Weights(x: Batch, e: real -> real, scale: real, r: Row): int -> real
    requires IsRow(x, r)
  {
    j => if Visible(x, r, j) then e(ScaledScore(x, r, j, scale)) else 0.0
  }

  function Values(x: Batch, r: Row, d: nat): int -> real
    requires IsRow(x, r) && d < HEAD_DIM
  {
    j => if 0 <= j < x.seqk[r.b] then x.v[x.CacheRow(r.b, j, r.h / GROUP)][d] else 0.0
  }

  function WeightedValues(x: Batch, e: real -> real, scale: real, r: Row, d: nat): int -> real
    requires IsRow(x, r) && d < HEAD_DIM
  {
    j => Product(Weights(x, e, scale, r)(j), Values(x, r, d)(j))
  }

  // ------------------------------------------------------------------ the reference

  /** One output cell of the reference: a softmax over a row that is entirely -inf is NaN. */
  datatype Cell = NaN | Num(value: Vec)

  /** `exp(x)` through the base-2 exponential. */
  function Exp(e: real -> real, log2e: real, y: real): real { e(y * log2e) }

  /** The reference's softmax numerators: exp of the scaled score, 0 where masked. */
  function RefWeights(x: Batch, e: real -> real, log2e: real, scale: real, r: Row): int -> real
    requires IsRow(x, r)
  {
    j => if Visible(x, r, j) then Exp(e, log2e, ScaledScore(x, r, j, scale)) else 0.0
  }

  /** The denominator of the softmax. */
  function RefTotal(x: Batch, e: real -> real, log2e: real, scale: real, r: Row): real
    requires IsRow(x, r)
  {
    Sum(RefWeights(x, e, log2e, scale, r), 0, x.seqk[r.b])
  }

  lemma RefTotalPositive(x: Batch, e: real -> real, log2e: real, scale: real, r: Row)
    requires IsRow(x, r) && IsExp2(e)
    ensures RefTotal(x, e, log2e, scale, r) > 0.0
            <==> x.seqk[r.b] > 0 && CausalLimit(x, r) >= 0
  {
    var f := RefWeights(x, e, log2e, scale, r);
    forall j | 0 <= j < x.seqk[r.b] ensures f(j) >= 0.0 && (Visible(x, r, j) <==> f(j) > 0.0) {
      assert Exp(e, log2e, ScaledScore(x, r, j, scale)) > 0.0;
    }
    SumPositive(f, 0, x.seqk[r.b]);
    if x.seqk[r.b] > 0 && CausalLimit(x, r) >= 0 { assert Visible(x, r, 0) && f(0) > 0.0; }
  }

  /** `softmax(scores)` times one coordinate of the values, column by column. */
  function AttentionTimes(x: Batch, e: real -> real, log2e: real, scale: real, r: Row, total: real, d: nat): int -> real
    requires IsRow(x, r) && d < HEAD_DIM
  {
    j => Product(Share(RefWeights(x, e, log2e, scale, r)(j), total), Values(x, r, d)(j))
  }

  function RefTerm(x: Batch, e: real -> real, log2e: real, scale: real, r: Row, d: nat): real
    requires IsRow(x, r) && d < HEAD_DIM
  {
    Sum(AttentionTimes(x, e, log2e, scale, r, RefTotal(x, e, log2e, scale, r), d), 0, x.seqk[r.b])
  }

  /** `matmul(softmax(scores), v)` for one row; NaN when there are columns but none is visible. */
  function RefCell(x: Batch, e: real -> real, log2e: real, scale: real, r: Row): Cell
    requires IsRow(x, r)
  {
    if x.seqk[r.b] > 0 && CausalLimit(x, r) < 0 then NaN
    else Num(seq(HEAD_DIM, d requires 0 <= d < HEAD_DIM => RefTerm(x, e, log2e, scale, r, d)))
  }

  // ------------------------------------------------------------------ rows and slots

  /** The request that owns an active slot. */
  function RequestOf(x: Batch, s: nat, n: nat): (b: nat)
    requires x.Valid() && n <= x.Requests() && s < x.cuq[n]
    ensures b < n && x.cuq[b] <= s < x.cuq[b + 1]
  {
    if s >= x.cuq[n - 1] then n - 1 else RequestOf(x, s, n - 1)
  }

  /** The row stored at index `g` of the output. */
  function RowAt(x: Batch, g: nat): (r: Row)
    requires x.Valid() && g / HEADS < x.Active()
    ensures IsRow(x, r) && Slot(x, r) == g
  {
    var b := RequestOf(x, g / HEADS, x.Requests());
    Row(b, g / HEADS - x.cuq[b], g % HEADS)
  }

  /** The rows tile the active output exactly: distinct rows have distinct slots. */
  lemma RowAtSlot(x: Batch, r: Row)
    requires IsRow(x, r)
    ensures Slot(x, r) / HEADS < x.Active() && RowAt(x, Slot(x, r)) == r
  {
    var s := Slot(x, r) / HEADS;
    assert s == x.cuq[r.b] + r.i;
    var b := RequestOf(x, s, x.Requests());
  }

  function Zeros(): Vec { seq(HEAD_DIM, d => 0.0) }

  /** What the reference leaves at index `g`. */
  function RefOut(x: Batch, e: real -> real, log2e: real, scale: real, g: nat): Cell
    requires x.Valid()
  {
    if g / HEADS < x.Active() then RefCell(x, e, log2e, scale, RowAt(x, g)) else Num(Zeros())
  }

  /** The slice of request `b`. */
  lemma SliceRows(x: Batch, b: nat, g: nat)
    requires x.Valid() && b < x.Requests() && x.cuq[b] <= g / HEADS < x.cuq[b + 1]
    ensures g < x.slots * HEADS && g / HEADS < x.Active()
    ensures IsRow(x, Row(b, g / HEADS - x.cuq[b], g % HEADS)) && RowAt(x, g) == Row(b, g / HEADS - x.cuq[b], g % HEADS)
  {
    RowAtSlot(x, Row(b, g / HEADS - x.cuq[b], g % HEADS));
  }

  /** `Model.forward` of the reference: zeros, then one slice per request. */
  method ReferenceForward(x: Batch, e: real -> real, log2e: real, scale: real) returns (out: array<Cell>)
    requires x.Valid()
    ensures fresh(out) && out.Length == x.slots * HEADS
    ensures forall g :: 0 <= g < out.Length ==> out[g] == RefOut(x, e, log2e, scale, g)
  {
    out := new Cell[x.slots * HEADS](_ => Num(Zeros()));
    for b := 0 to |x.seqk|
      invariant forall g :: 0 <= g < out.Length ==>
        out[g] == if g / HEADS < x.cuq[b] then RefOut(x, e, log2e, scale, g) else Num(Zeros())
    {
      var qs, qe := x.cuq[b], x.cuq[b + 1];
      if qe <= qs { continue; }
      FillSlice(x, e, log2e, scale, b, out);
    }
  }

  /** `out[qs:qe] = ...` for one request. */
  method FillSlice(x: Batch, e: real -> real, log2e: real, scale: real, b: nat, out: array<Cell>)
    requires x.Valid() && b < x.Requests() && out.Length == x.slots * HEADS
    modifies out
    ensures forall g :: 0 <= g < out.Length ==>
      out[g] == if x.cuq[b] <= g / HEADS < x.cuq[b + 1] then RefOut(x, e, log2e, scale, g) else old(out[g])
  {
    forall g | 0 <= g < out.Length && x.cuq[b] <= g / HEADS < x.cuq[b + 1]
      ensures IsRow(x, Row(b, g / HEADS - x.cuq[b], g % HEADS))
           && RefCell(x, e, log2e, scale, Row(b, g / HEADS - x.cuq[b], g % HEADS)) == RefOut(x, e, log2e, scale, g)
    {
      SliceRows(x, b, g);
    }
    forall g | 0 <= g < out.Length && x.cuq[b] <= g / HEADS < x.cuq[b + 1] {
      out[g] := RefCell(x, e, log2e, scale, Row(b, g / HEADS - x.cuq[b], g % HEADS));
    }
  }

  // ------------------------------------------------------------------ the kernel's formula

  /** What the fast kernel computes for one coordinate: weighted sum times guarded reciprocal, with
      the scale and log2(e) folded into one factor. */
  function KernelTerm(x: Batch, e: real -> real, qscl: real, r: Row, d: nat): real
    requires IsRow(x, r) && d < HEAD_DIM
  {
    Normalised(WeightedValues(x, e, qscl, r, d), Weights(x, e, qscl, r), x.seqk[r.b])
  }

  function KernelRow(x: Batch, e: real -> real, qscl: real, r: Row): Vec
    requires IsRow(x, r)
  {
    seq(HEAD_DIM, d requires 0 <= d < HEAD_DIM => KernelTerm(x, e, qscl, r, d))
  }

  lemma SameWeights(x: Batch, e: real -> real, log2e: real, scale: real, r: Row, j: nat)
    requires IsRow(x, r) && j < x.seqk[r.b]
    ensures Weights(x, e, scale * log2e, r)(j) == RefWeights(x, e, log2e, scale, r)(j)
  {
    if Visible(x, r, j) {
      assert ScaledScore(x, r, j, scale) * log2e == ScaledScore(x, r, j, scale * log2e);
      assert Weights(x, e, scale * log2e, r)(j) == e(ScaledScore(x, r, j, scale * log2e));
    }
  }

  lemma SameTerms(x: Batch, e: real -> real, log2e: real, scale: real, qscl: real, r: Row, d: nat, t: real)
    requires IsRow(x, r) && d < HEAD_DIM && qscl == scale * log2e
    ensures QuotientTerms(Weights(x, e, qscl, r), RefWeights(x, e, log2e, scale, r), Values(x, r, d),
                          WeightedValues(x, e, qscl, r, d), AttentionTimes(x, e, log2e, scale, r, t, d),
                          t, x.seqk[r.b])
  {
    forall j | 0 <= j < x.seqk[r.b]
      ensures Weights(x, e, qscl, r)(j) == RefWeights(x, e, log2e, scale, r)(j)
    {
      SameWeights(x, e, log2e, scale, r, j);
    }
  }

  lemma PositiveCoordinate(x: Batch, e: real -> real, log2e: real, scale: real, qscl: real, r: Row, d: nat)
    requires IsRow(x, r) && d < HEAD_DIM && qscl == scale * log2e
    requires RefTotal(x, e, log2e, scale, r) > 0.0
    ensures RefTerm(x, e, log2e, scale, r, d) == KernelTerm(x, e, qscl, r, d)
  {
    var t := RefTotal(x, e, log2e, scale, r);
    SameTerms(x, e, log2e, scale, qscl, r, d, t);
    DeferredDivision(Weights(x, e, qscl, r), RefWeights(x, e, log2e, scale, r), Values(x, r, d),
                     WeightedValues(x, e, qscl, r, d), AttentionTimes(x, e, log2e, scale, r, t, d), x.seqk[r.b]);
  }

  /** Folding the scale, deferring the division and guarding the reciprocal change nothing. */
  lemma KernelCoordinate(x: Batch, e: real -> real, log2e: real, scale: real, r: Row, d: nat)
    requires IsRow(x, r) && IsExp2(e) && d < HEAD_DIM
    requires x.seqk[r.b] > 0 ==> CausalLimit(x, r) >= 0
    ensures RefTerm(x, e, log2e, scale, r, d) == KernelTerm(x, e, scale * log2e, r, d)
  {
    if x.seqk[r.b] > 0 {
      RefTotalPositive(x, e, log2e, scale, r);
      PositiveCoordinate(x, e, log2e, scale, scale * log2e, r, d);
    }
  }

  /** Wherever the reference is a number, the kernel's formula is that number. */
  lemma KernelRowIsReference(x: Batch, e: real -> real, log2e: real, scale: real, r: Row)
    requires IsRow(x, r) && IsExp2(e)
    ensures
      var c := RefCell(x, e, log2e, scale, r);
      c.Num? ==> c.value == KernelRow(x, e, scale * log2e, r)
  {
    var c := RefCell(x, e, log2e, scale, r);
    if c.Num? {
      forall d | 0 <= d < HEAD_DIM ensures c.value[d] == KernelRow(x, e, scale * log2e, r)[d] {
        KernelCoordinate(x, e, log2e, scale, r, d);
      }
    }
  }
}
