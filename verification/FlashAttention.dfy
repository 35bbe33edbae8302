/** The three CUDA kernels and their launch: `fa_main`, `fa_combine` and `zero_inactive`, proved
    against the reference row by row. Blocks and threads write disjoint elements, so a launch is
    modelled as a loop over blocks and a block's stores as one parallel assignment. */
module FlashAttention {
  import opened Softmax
  import opened SplitGeometry
  import opened PagedBatch
  import opened FaMainTile
  import opened PartialBuffer

  // ------------------------------------------------------------------ partial buffers

  /** Index of a split's partial for one (slot, head): `(sp * rows_bound + slot) * H + head`. */
  function PartialIndex(rb: nat, sp: nat, slot: nat, h: nat): nat { (sp * rb + slot) * HEADS + h }

  function PartialSplit(rb: nat, p: nat): nat requires rb > 0 { p / HEADS / rb }
  function PartialSlot(rb: nat, p: nat): (s: nat) requires rb > 0 ensures s < rb { (p / HEADS) % rb }
  function PartialHead(p: nat): nat { p % HEADS }

  lemma DivModUnique(a: nat, b: nat, n: nat)
    requires b < n
    ensures (a * n + b) / n == a && (a * n + b) % n == b
  {
    var q, m := (a * n + b) / n, (a * n + b) % n;
    assert (q - a) * n == b - m;
    if q != a { NonzeroMultiple(q - a, n); }
  }

  lemma NonzeroMultiple(k: int, n: nat)
    requires k != 0
    ensures k * n >= n || k * n + n <= 0
  {
    if k > 0 { MulMono(1, k, n); } else { MulMono(1, -k, n); }
  }

  /** The partial index is a bijection onto (split, slot, head). */
  lemma PartialDecodes(rb: nat, sp: nat, slot: nat, h: nat)
    requires slot < rb && h < HEADS
    ensures
      var p := PartialIndex(rb, sp, slot, h);
      PartialSplit(rb, p) == sp && PartialSlot(rb, p) == slot && PartialHead(p) == h
    ensures forall n :: sp < n ==> PartialIndex(rb, sp, slot, h) < n * rb * HEADS
  {
    DivModUnique(sp, slot, rb);
    var p := PartialIndex(rb, sp, slot, h);
    assert p / HEADS == sp * rb + slot && p % HEADS == h;
    forall n | sp < n ensures p < n * rb * HEADS {
      MulMono(sp + 1, n, rb);
      assert (sp + 1) * rb == sp * rb + rb;
    }
  }

  // ------------------------------------------------------------------ what a block owns

  datatype Launch = Launch(x: Batch, e: real -> real, qscl: real, splits: nat, rb: nat) {
    ghost predicate Valid() {
      x.Valid() && IsExp2(e) && qscl > 0.0 && splits >= 1 && x.Active() <= rb
    }

    /** The output row whose partial is stored at `p`. */
    ghost predicate HoldsRow(p: nat) { x.Valid() && rb > 0 && PartialSlot(rb, p) < x.Active() }

    ghost function PartialRow(p: nat): (w: Row)
      requires HoldsRow(p)
      ensures IsRow(x, w)
    {
      RowAt(x, PartialSlot(rb, p) * HEADS + PartialHead(p))
    }
  }

  /** The block that owns a row: its request, its kv head and its tile of eight positions. */
  predicate Owns(b: nat, kvg: nat, t: nat, w: Row) { w.b == b && w.h / GROUP == kvg && w.i / POSITIONS == t }

  /** A stored partial stands for its split's share of the row; -INF marks a share that is zero and
      leaves `l` and `o` unread. */
  ghost predicate PartialOk(c: Launch, sp: nat, w: Row, m: Ext, l: real, o: Vec)
    requires c.Valid() && IsRow(c.x, w)
  {
    var lo, hi := SplitLow(c.x.seqk[w.b], c.splits, sp), SplitLow(c.x.seqk[w.b], c.splits, sp + 1);
    && (m.NegInf? ==>
      && Sum(Weights(c.x, c.e, c.qscl, w), lo, hi) == 0.0
      && forall d :: 0 <= d < HEAD_DIM ==> Sum(WeightedValues(c.x, c.e, c.qscl, w, d), lo, hi) == 0.0)
    && (m.Fin? ==>
      && Carries(c.e, m, l, Sum(Weights(c.x, c.e, c.qscl, w), lo, hi))
      && forall d :: 0 <= d < HEAD_DIM ==>
        Carries(c.e, m, o[d], Sum(WeightedValues(c.x, c.e, c.qscl, w, d), lo, hi)))
  }

  /** Whether the block of a row stores it on the direct path. */
  predicate DirectStores(x: Batch, w: Row)
    requires IsRow(x, w)
  {
    x.seqk[w.b] > 0 && x.QLen(w.b) <= x.seqk[w.b] + w.i / POSITIONS * POSITIONS + 7
  }

  function TaskOf(c: Launch, b: nat, sp: nat, kvg: nat, t: nat): Task {
    Task(c.x, c.e, c.qscl, b, c.splits, sp, t * POSITIONS, kvg)
  }

  /** Folded row `r` of the owning block, for a row it owns. */
  function Folded(w: Row): nat { w.i % POSITIONS * 8 + w.h % 8 }

  lemma FoldedRow(c: Launch, b: nat, sp: nat, kvg: nat, t: nat, w: Row)
    requires c.Valid() && sp < c.splits && IsRow(c.x, w) && Owns(b, kvg, t, w) && kvg < KV_HEADS
    ensures TaskOf(c, b, sp, kvg, t).Valid() && Folded(w) < FOLDED
    ensures TaskOf(c, b, sp, kvg, t).RowOf(Folded(w)) == w
  {
    var i0 := t * POSITIONS;
    assert w.i == i0 + w.i % POSITIONS;
    var r := Folded(w);
    assert r / 8 == w.i % POSITIONS && r % 8 == w.h % 8;
  }

  // ------------------------------------------------------------------ epilogue

  lemma WeightsNonNegative(x: Batch, e: real -> real, qscl: real, w: Row)
    requires IsRow(x, w) && IsExp2(e)
    ensures Sum(Weights(x, e, qscl, w), 0, x.seqk[w.b]) >= 0.0
  {
    SumPositive(Weights(x, e, qscl, w), 0, x.seqk[w.b]);
  }

  /** `o * inv`, as stored by the direct path and by the combine kernel. */
  function Normalise(l: real, o: Vec): Vec {
    seq(HEAD_DIM, d requires 0 <= d < HEAD_DIM => Product(o[d], Inverse(l)))
  }

  /** Accumulators that stand for the whole row normalise to the kernel's formula. */
  lemma NormaliseRow(x: Batch, e: real -> real, qscl: real, w: Row, m: Ext, l: real, o: Vec)
    requires IsRow(x, w) && IsExp2(e)
    requires Carries(e, m, l, Sum(Weights(x, e, qscl, w), 0, x.seqk[w.b]))
    requires forall d :: 0 <= d < HEAD_DIM ==>
      Carries(e, m, o[d], Sum(WeightedValues(x, e, qscl, w, d), 0, x.seqk[w.b]))
    ensures Normalise(l, o) == KernelRow(x, e, qscl, w)
  {
    WeightsNonNegative(x, e, qscl, w);
    forall d | 0 <= d < HEAD_DIM ensures Normalise(l, o)[d] == KernelRow(x, e, qscl, w)[d] {
      Softmax.Normalise(e, m, l, o[d], Sum(Weights(x, e, qscl, w), 0, x.seqk[w.b]),
                        Sum(WeightedValues(x, e, qscl, w, d), 0, x.seqk[w.b]));
    }
  }

  // ------------------------------------------------------------------ fa_main

  /** What the direct path leaves at `g`, given whether the blocks that have run own its row. */
  ghost predicate DirectAfter(c: Launch, owned: bool, g: nat, before: Vec, after: Vec)
    requires c.Valid() && (owned ==> g / HEADS < c.x.Active())
  {
    after == if owned && DirectStores(c.x, RowAt(c.x, g)) then KernelRow(c.x, c.e, c.qscl, RowAt(c.x, g)) else before
  }

  ghost predicate OwnedBy(c: Launch, b: nat, kvg: nat, t: nat, g: nat)
    requires c.Valid()
  {
    g / HEADS < c.x.Active() && Owns(b, kvg, t, RowAt(c.x, g))
  }

  lemma DirectRow(c: Launch, b: nat, kvg: nat, t: nat, w: Row, m: seq<Ext>, l: seq<real>, o: seq<Vec>)
    requires c.Valid() && c.splits == 1 && kvg < KV_HEADS && IsRow(c.x, w) && Owns(b, kvg, t, w)
    requires TaskOf(c, b, 0, kvg, t).Valid()
    requires var k := TaskOf(c, b, 0, kvg, t);
      k.G().NTiles() > 0 && AllAccumulated(k, k.G().End(), m, l, o)
    ensures Folded(w) < FOLDED && Normalise(l[Folded(w)], o[Folded(w)]) == KernelRow(c.x, c.e, c.qscl, w)
  {
    var k := TaskOf(c, b, 0, kvg, t);
    FoldedRow(c, b, 0, kvg, t, w);
    var r := Folded(w);
    DirectBlockWorks(k.G());
    assert Accumulated(k, k.RowOf(r), k.G().Start(), k.G().End(), m[r], l[r], o[r]);
    NormaliseRow(c.x, c.e, c.qscl, w, m[r], l[r], o[r]);
  }

  /** Which of the block's accumulators row `g` is normalised from. */
  function Source(c: Launch, b: nat, t: nat, g: nat): int
    requires c.x.Request(b)
  {
    (g / HEADS - c.x.cuq[b] - t * POSITIONS) * 8 + g % HEADS % 8
  }

  lemma DirectStore(c: Launch, b: nat, kvg: nat, t: nat, m: seq<Ext>, l: seq<real>, o: seq<Vec>, g: nat)
    requires c.Valid() && c.splits == 1 && kvg < KV_HEADS && TaskOf(c, b, 0, kvg, t).Valid()
    requires var k := TaskOf(c, b, 0, kvg, t);
      k.G().NTiles() > 0 && AllAccumulated(k, k.G().End(), m, l, o)
    ensures Stores(c, b, kvg, t, g) <==> OwnedBy(c, b, kvg, t, g)
    ensures Stores(c, b, kvg, t, g) ==>
      var r := Source(c, b, t, g);
      0 <= r < FOLDED && DirectAfter(c, true, g, Zeros(), Normalise(l[r], o[r]))
  {
    StoresOwned(c, b, kvg, t, g);
    if Stores(c, b, kvg, t, g) {
      DirectRow(c, b, kvg, t, RowAt(c.x, g), m, l, o);
      DirectBlockWorks(TaskOf(c, b, 0, kvg, t).G());
    }
  }

  /** The direct epilogue of one block: every row it owns, and nothing else. */
  method StoreDirect(c: Launch, b: nat, kvg: nat, t: nat, m: seq<Ext>, l: seq<real>, o: seq<Vec>, out: array<Vec>)
    requires c.Valid() && c.splits == 1 && kvg < KV_HEADS && out.Length == c.x.slots * HEADS
    requires TaskOf(c, b, 0, kvg, t).Valid()
    requires var k := TaskOf(c, b, 0, kvg, t);
      k.G().NTiles() > 0 && AllAccumulated(k, k.G().End(), m, l, o)
    modifies out
    ensures forall g :: 0 <= g < out.Length ==> DirectAfter(c, OwnedBy(c, b, kvg, t, g), g, old(out[g]), out[g])
  {
    forall g | 0 <= g < out.Length
      ensures Stores(c, b, kvg, t, g) <==> OwnedBy(c, b, kvg, t, g)
      ensures Stores(c, b, kvg, t, g) ==>
        0 <= Source(c, b, t, g) < FOLDED
        && DirectAfter(c, true, g, Zeros(), Normalise(l[Source(c, b, t, g)], o[Source(c, b, t, g)]))
    {
      DirectStore(c, b, kvg, t, m, l, o, g);
    }
    forall g | 0 <= g < out.Length && Stores(c, b, kvg, t, g) {
      out[g] := Normalise(l[Source(c, b, t, g)], o[Source(c, b, t, g)]);
    }
  }

  /** The store guard of the epilogue: `i < q_len` for one of the block's eight positions, and a
      head of its group. */
  predicate Stores(c: Launch, b: nat, kvg: nat, t: nat, g: nat)
    requires c.x.Request(b)
  {
    var i := g / HEADS - c.x.cuq[b];
    t * POSITIONS <= i < t * POSITIONS + POSITIONS && i < c.x.QLen(b) && g % HEADS / GROUP == kvg
  }

  /** A block's guarded stores hit exactly the rows it owns. */
  lemma StoresOwned(c: Launch, b: nat, kvg: nat, t: nat, g: nat)
    requires c.Valid() && b < c.x.Requests()
    ensures Stores(c, b, kvg, t, g) <==> OwnedBy(c, b, kvg, t, g)
    ensures Stores(c, b, kvg, t, g) ==> Source(c, b, t, g) == Folded(RowAt(c.x, g))
  {
    if Stores(c, b, kvg, t, g) {
      SliceRows(c.x, b, g);
      TileOfPosition(g / HEADS - c.x.cuq[b], t, g % HEADS);
    } else if OwnedBy(c, b, kvg, t, g) {
      TileOfPosition(RowAt(c.x, g).i, t, g % HEADS);
      assert false;
    }
  }

  lemma TileOfPosition(i: nat, t: nat, h: nat)
    requires h < HEADS
    ensures t * POSITIONS <= i < t * POSITIONS + POSITIONS <==> i / POSITIONS == t
    ensures i / POSITIONS == t ==> (i - t * POSITIONS) * 8 + h % 8 == i % POSITIONS * 8 + h % 8
  {
  }

  // ------------------------------------------------------------------ split epilogue

  ghost predicate OwnedPartial(c: Launch, b: nat, sp: nat, kvg: nat, t: nat, p: nat)
    requires c.Valid()
  {
    c.HoldsRow(p) && PartialSplit(c.rb, p) == sp && Owns(b, kvg, t, c.PartialRow(p))
  }

  /** The stored partial at `p` is right for the row and split it belongs to. */
  ghost predicate PartialGood(c: Launch, p: nat, m: Ext, l: real, o: Vec)
    requires c.Valid() && c.HoldsRow(p)
  {
    PartialOk(c, PartialSplit(c.rb, p), c.PartialRow(p), m, l, o)
  }

  /** The buffer has room for every partial of the launch. */
  predicate HoldsPartials(c: Launch, ps: Partials) { ps.Fits() && ps.n == c.splits * c.rb * HEADS }

  /** The partial at `p` is as it was. */
  twostate predicate Kept(ps: Partials, p: nat)
    requires ps.Fits() && p < ps.n
    reads ps.buf
  {
    ps.Max(p) == old(ps.Max(p)) && ps.Den(p) == old(ps.Den(p)) && ps.Acc(p) == old(ps.Acc(p))
  }

  predicate StoresPartial(c: Launch, b: nat, sp: nat, kvg: nat, t: nat, p: nat)
    requires c.x.Request(b) && c.rb > 0
  {
    PartialSplit(c.rb, p) == sp && Stores(c, b, kvg, t, PartialSlot(c.rb, p) * HEADS + PartialHead(p))
  }

  function PartialSource(c: Launch, b: nat, t: nat, p: nat): int
    requires c.x.Request(b) && c.rb > 0
  {
    Source(c, b, t, PartialSlot(c.rb, p) * HEADS + PartialHead(p))
  }

  lemma StoresOwnedPartial(c: Launch, b: nat, sp: nat, kvg: nat, t: nat, p: nat)
    requires c.Valid() && b < c.x.Requests() && c.rb > 0
    ensures StoresPartial(c, b, sp, kvg, t, p) <==> OwnedPartial(c, b, sp, kvg, t, p)
    ensures StoresPartial(c, b, sp, kvg, t, p) ==> PartialSource(c, b, t, p) == Folded(c.PartialRow(p))
  {
    var g := PartialSlot(c.rb, p) * HEADS + PartialHead(p);
    assert g / HEADS == PartialSlot(c.rb, p);
    StoresOwned(c, b, kvg, t, g);
  }

  lemma SplitRow(c: Launch, b: nat, sp: nat, kvg: nat, t: nat, w: Row, m: seq<Ext>, l: seq<real>, o: seq<Vec>)
    requires c.Valid() && sp < c.splits && kvg < KV_HEADS && IsRow(c.x, w) && Owns(b, kvg, t, w)
    requires TaskOf(c, b, sp, kvg, t).Valid()
    requires var k := TaskOf(c, b, sp, kvg, t);
      k.G().NTiles() > 0 && AllAccumulated(k, k.G().End(), m, l, o)
    ensures Folded(w) < FOLDED && PartialOk(c, sp, w, m[Folded(w)], l[Folded(w)], o[Folded(w)])
  {
    var k := TaskOf(c, b, sp, kvg, t);
    FoldedRow(c, b, sp, kvg, t, w);
    var r := Folded(w);
    assert Accumulated(k, k.RowOf(r), k.G().Start(), k.G().End(), m[r], l[r], o[r]);
    TilesInside(k.G(), 0);
    SplitsPartition(c.x.seqk[b], c.splits, sp);
    assert SplitLow(c.x.seqk[b], c.splits, sp) == k.G().Start();
    assert SplitLow(c.x.seqk[b], c.splits, sp + 1) == k.G().End();
  }

  /** A block with no tile owns a share that is zero: its -INF mark is right whatever the row and the
      denominator hold. */
  lemma EmptyRow(c: Launch, b: nat, sp: nat, kvg: nat, t: nat, w: Row, l: real, o: Vec)
    requires c.Valid() && sp < c.splits && kvg < KV_HEADS && IsRow(c.x, w) && Owns(b, kvg, t, w)
    requires TaskOf(c, b, sp, kvg, t).Valid() && TaskOf(c, b, sp, kvg, t).G().NTiles() == 0
    ensures PartialOk(c, sp, w, NegInf, l, o)
  {
    var k := TaskOf(c, b, sp, kvg, t);
    FoldedRow(c, b, sp, kvg, t, w);
    SplitsPartition(c.x.seqk[b], c.splits, sp);
    var lo := SplitLow(c.x.seqk[b], c.splits, sp);
    assert SplitLow(c.x.seqk[b], c.splits, sp + 1) == k.G().End();
    NoTiles(k.G());
    InvisibleRest(k, Folded(w), lo);
  }

  lemma NoTiles(g: Block)
    requires g.Valid() && g.NTiles() == 0
    ensures g.CEnd() <= SplitLow(g.kv, g.splits, g.sp) <= g.End()
  {
    SplitsPartition(g.kv, g.splits, g.sp);
  }

  lemma SplitStore(c: Launch, b: nat, sp: nat, kvg: nat, t: nat, m: seq<Ext>, l: seq<real>, o: seq<Vec>, p: nat)
    requires c.Valid() && c.rb > 0 && sp < c.splits && kvg < KV_HEADS && TaskOf(c, b, sp, kvg, t).Valid()
    requires var k := TaskOf(c, b, sp, kvg, t);
      k.G().NTiles() > 0 && AllAccumulated(k, k.G().End(), m, l, o)
    ensures StoresPartial(c, b, sp, kvg, t, p) <==> OwnedPartial(c, b, sp, kvg, t, p)
    ensures StoresPartial(c, b, sp, kvg, t, p) ==>
      var r := PartialSource(c, b, t, p);
      0 <= r < FOLDED && PartialGood(c, p, m[r], l[r], o[r])
  {
    StoresOwnedPartial(c, b, sp, kvg, t, p);
    if StoresPartial(c, b, sp, kvg, t, p) { SplitRow(c, b, sp, kvg, t, c.PartialRow(p), m, l, o); }
  }

  /** The split epilogue of one block: the raw partials of every row it owns, and nothing else. */
  method StoreSplit(c: Launch, b: nat, sp: nat, kvg: nat, t: nat, m: seq<Ext>, l: seq<real>, o: seq<Vec>, ps: Partials)
    requires c.Valid() && c.rb > 0 && sp < c.splits && kvg < KV_HEADS && TaskOf(c, b, sp, kvg, t).Valid()
    requires HoldsPartials(c, ps)
    requires var k := TaskOf(c, b, sp, kvg, t);
      k.G().NTiles() > 0 && AllAccumulated(k, k.G().End(), m, l, o)
    modifies ps.buf
    ensures forall p :: 0 <= p < ps.n ==>
      if OwnedPartial(c, b, sp, kvg, t, p) then PartialGood(c, p, ps.Max(p), ps.Den(p), ps.Acc(p))
      else Kept(ps, p)
  {
    forall p | 0 <= p < ps.n
      ensures StoresPartial(c, b, sp, kvg, t, p) <==> OwnedPartial(c, b, sp, kvg, t, p)
      ensures StoresPartial(c, b, sp, kvg, t, p) ==>
        0 <= PartialSource(c, b, t, p) < FOLDED
        && PartialGood(c, p, m[PartialSource(c, b, t, p)], l[PartialSource(c, b, t, p)], o[PartialSource(c, b, t, p)])
    {
      SplitStore(c, b, sp, kvg, t, m, l, o, p);
    }
    var chosen := (p: nat) => StoresPartial(c, b, sp, kvg, t, p);
    var row := (p: nat) => if 0 <= PartialSource(c, b, t, p) < FOLDED then o[PartialSource(c, b, t, p)] else Zeros();
    var max := (p: nat) => if 0 <= PartialSource(c, b, t, p) < FOLDED then m[PartialSource(c, b, t, p)] else NegInf;
    var den := (p: nat) => if 0 <= PartialSource(c, b, t, p) < FOLDED then l[PartialSource(c, b, t, p)] else 0.0;
    StorePartials(ps, chosen, row, max, den);
  }

  lemma EmptyPartial(c: Launch, b: nat, sp: nat, kvg: nat, t: nat, p: nat)
    requires c.Valid() && c.rb > 0 && sp < c.splits && kvg < KV_HEADS && TaskOf(c, b, sp, kvg, t).Valid()
    requires TaskOf(c, b, sp, kvg, t).G().NTiles() == 0
    ensures StoresPartial(c, b, sp, kvg, t, p) <==> OwnedPartial(c, b, sp, kvg, t, p)
    ensures StoresPartial(c, b, sp, kvg, t, p) ==> forall l: real, o: Vec :: PartialGood(c, p, NegInf, l, o)
  {
    StoresOwnedPartial(c, b, sp, kvg, t, p);
    if StoresPartial(c, b, sp, kvg, t, p) {
      forall l: real, o: Vec ensures PartialGood(c, p, NegInf, l, o) {
        EmptyRow(c, b, sp, kvg, t, c.PartialRow(p), l, o);
      }
    }
  }

  /** The early return of a block whose split range is empty or fully masked. */
  method MarkEmpty(c: Launch, b: nat, sp: nat, kvg: nat, t: nat, ps: Partials)
    requires c.Valid() && c.rb > 0 && sp < c.splits && kvg < KV_HEADS && TaskOf(c, b, sp, kvg, t).Valid()
    requires HoldsPartials(c, ps)
    requires TaskOf(c, b, sp, kvg, t).G().NTiles() == 0
    modifies ps.buf
    ensures forall p :: 0 <= p < ps.n ==>
      if OwnedPartial(c, b, sp, kvg, t, p) then PartialGood(c, p, ps.Max(p), ps.Den(p), ps.Acc(p)) else Kept(ps, p)
    ensures forall p :: 0 <= p < ps.n ==> ps.Acc(p) == old(ps.Acc(p)) && ps.Den(p) == old(ps.Den(p))
  {
    forall p: nat
      ensures StoresPartial(c, b, sp, kvg, t, p) <==> OwnedPartial(c, b, sp, kvg, t, p)
      ensures StoresPartial(c, b, sp, kvg, t, p) ==> forall l: real, o: Vec :: PartialGood(c, p, NegInf, l, o)
    {
      EmptyPartial(c, b, sp, kvg, t, p);
    }
    var chosen, mark := (p: nat) => StoresPartial(c, b, sp, kvg, t, p), (p: nat) => NegInf;
    StoreMaxima(ps, chosen, mark);
    assert forall p :: 0 <= p < ps.n && !chosen(p) ==> Kept(ps, p);
  }

  /** A tile past the request's last position owns no row. */
  lemma PaddingTile(c: Launch, b: nat, kvg: nat, t: nat, w: Row)
    requires c.Valid() && b < c.x.Requests() && t * POSITIONS >= c.x.QLen(b) && IsRow(c.x, w)
    ensures !Owns(b, kvg, t, w)
  {
  }

  /** On the direct path a block without tiles stores none of its rows. */
  lemma NoDirectStore(c: Launch, b: nat, kvg: nat, t: nat, w: Row)
    requires c.Valid() && c.splits == 1 && IsRow(c.x, w) && Owns(b, kvg, t, w)
    requires TaskOf(c, b, 0, kvg, t).Valid() && TaskOf(c, b, 0, kvg, t).G().NTiles() == 0
    ensures !DirectStores(c.x, w)
  {
    DirectBlockWorks(TaskOf(c, b, 0, kvg, t).G());
  }

  method FaMainDirect(c: Launch, b: nat, kvg: nat, t: nat, out: array<Vec>)
    requires c.Valid() && c.splits == 1 && b < c.x.Requests() && kvg < KV_HEADS && out.Length == c.x.slots * HEADS
    modifies out
    ensures forall g :: 0 <= g < out.Length ==> DirectAfter(c, OwnedBy(c, b, kvg, t, g), g, old(out[g]), out[g])
  {
    if t * POSITIONS >= c.x.QLen(b) {
      forall g | 0 <= g < out.Length ensures !OwnedBy(c, b, kvg, t, g) {
        if g / HEADS < c.x.Active() { PaddingTile(c, b, kvg, t, RowAt(c.x, g)); }
      }
      return;
    }
    var k := TaskOf(c, b, 0, kvg, t);
    if k.G().NTiles() == 0 {
      forall g | 0 <= g < out.Length && OwnedBy(c, b, kvg, t, g) ensures !DirectStores(c.x, RowAt(c.x, g)) {
        NoDirectStore(c, b, kvg, t, RowAt(c.x, g));
      }
      return;
    }
    var m, l, o := Accumulate(k);
    StoreDirect(c, b, kvg, t, m, l, o, out);
  }

  method FaMainSplit(c: Launch, b: nat, sp: nat, kvg: nat, t: nat, ps: Partials)
    requires c.Valid() && b < c.x.Requests() && sp < c.splits && kvg < KV_HEADS
    requires HoldsPartials(c, ps)
    modifies ps.buf
    ensures forall p :: 0 <= p < ps.n ==>
      if OwnedPartial(c, b, sp, kvg, t, p) then PartialGood(c, p, ps.Max(p), ps.Den(p), ps.Acc(p))
      else Kept(ps, p)
  {
    if t * POSITIONS >= c.x.QLen(b) {
      forall p | 0 <= p < ps.n ensures !OwnedPartial(c, b, sp, kvg, t, p) {
        if c.HoldsRow(p) { PaddingTile(c, b, kvg, t, c.PartialRow(p)); }
      }
      return;
    }
    var k := TaskOf(c, b, sp, kvg, t);
    if k.G().NTiles() == 0 {
      MarkEmpty(c, b, sp, kvg, t, ps);
      return;
    }
    var m, l, o := Accumulate(k);
    StoreSplit(c, b, sp, kvg, t, m, l, o, ps);
  }

  lemma BlockOf(z: nat, n: nat, splits: nat)
    requires splits >= 1 && z < n * splits
    ensures z / splits < n && z - z / splits * splits == z % splits
  {
    if z / splits >= n { MulMono(n, z / splits, splits); assert false; }
  }

  // ------------------------------------------------------------------ the grid of fa_main

  /** The grid's query tiles reach every position of every request. */
  ghost predicate TilesCover(c: Launch, tiles: nat)
    requires c.Valid()
  {
    forall b :: 0 <= b < c.x.Requests() ==> c.x.QLen(b) <= tiles * POSITIONS
  }

  /** Rows of request `b` whose block precedes `(kvg, t)`. */
  predicate Earlier(b: nat, kvg: nat, t: nat, w: Row) {
    w.b == b && (w.h / GROUP < kvg || (w.h / GROUP == kvg && w.i / POSITIONS < t))
  }

  ghost predicate EarlierAt(c: Launch, b: nat, kvg: nat, t: nat, g: nat)
    requires c.Valid()
  {
    g / HEADS < c.x.Active() && Earlier(b, kvg, t, RowAt(c.x, g))
  }

  ghost predicate EarlierPartial(c: Launch, b: nat, sp: nat, kvg: nat, t: nat, p: nat)
    requires c.Valid()
  {
    c.HoldsRow(p) && PartialSplit(c.rb, p) == sp && Earlier(b, kvg, t, c.PartialRow(p))
  }

  /** Once every tile of a kv head has run, the next head begins. */
  lemma HeadDone(c: Launch, tiles: nat, b: nat, kvg: nat, w: Row)
    requires c.Valid() && TilesCover(c, tiles) && IsRow(c.x, w)
    ensures Earlier(b, kvg, tiles, w) <==> Earlier(b, kvg + 1, 0, w)
  {
    if w.b == b { assert w.i < tiles * POSITIONS; }
  }

  /** The direct blocks of one request. */
  method LaunchDirect(c: Launch, tiles: nat, b: nat, out: array<Vec>)
    requires c.Valid() && c.splits == 1 && TilesCover(c, tiles) && b < c.x.Requests() && out.Length == c.x.slots * HEADS
    modifies out
    ensures forall g :: 0 <= g < out.Length ==>
      DirectAfter(c, EarlierAt(c, b, KV_HEADS, 0, g), g, old(out[g]), out[g])
  {
    for kvg := 0 to KV_HEADS
      invariant forall g :: 0 <= g < out.Length ==>
        DirectAfter(c, EarlierAt(c, b, kvg, 0, g), g, old(out[g]), out[g])
    {
      for t := 0 to tiles
        invariant forall g :: 0 <= g < out.Length ==>
          DirectAfter(c, EarlierAt(c, b, kvg, t, g), g, old(out[g]), out[g])
      {
        FaMainDirect(c, b, kvg, t, out);
      }
      forall g | 0 <= g < out.Length && g / HEADS < c.x.Active()
        ensures EarlierAt(c, b, kvg, tiles, g) <==> EarlierAt(c, b, kvg + 1, 0, g)
      {
        HeadDone(c, tiles, b, kvg, RowAt(c.x, g));
      }
    }
  }

  /** The blocks of one request and one split. */
  method LaunchSplit(c: Launch, tiles: nat, b: nat, sp: nat, ps: Partials)
    requires c.Valid() && TilesCover(c, tiles) && b < c.x.Requests() && sp < c.splits
    requires HoldsPartials(c, ps)
    modifies ps.buf
    ensures forall p :: 0 <= p < ps.n ==>
      if EarlierPartial(c, b, sp, KV_HEADS, 0, p) then PartialGood(c, p, ps.Max(p), ps.Den(p), ps.Acc(p))
      else Kept(ps, p)
  {
    for kvg := 0 to KV_HEADS
      invariant forall p :: 0 <= p < ps.n ==>
        if EarlierPartial(c, b, sp, kvg, 0, p) then PartialGood(c, p, ps.Max(p), ps.Den(p), ps.Acc(p))
        else Kept(ps, p)
    {
      for t := 0 to tiles
        invariant forall p :: 0 <= p < ps.n ==>
          if EarlierPartial(c, b, sp, kvg, t, p) then PartialGood(c, p, ps.Max(p), ps.Den(p), ps.Acc(p))
          else Kept(ps, p)
      {
        FaMainSplit(c, b, sp, kvg, t, ps);
      }
      forall p | 0 <= p < ps.n && c.HoldsRow(p)
        ensures EarlierPartial(c, b, sp, kvg, tiles, p) <==> EarlierPartial(c, b, sp, kvg + 1, 0, p)
      {
        HeadDone(c, tiles, b, kvg, c.PartialRow(p));
      }
    }
  }

  lemma SplitInRange(c: Launch, p: nat)
    requires c.rb > 0 && p < c.splits * c.rb * HEADS
    ensures PartialSplit(c.rb, p) < c.splits
  {
    if PartialSplit(c.rb, p) >= c.splits {
      MulMono(c.splits, PartialSplit(c.rb, p), c.rb);
      assert false;
    }
  }

  /** The grid slice `z` that computes the partial at `p`. */
  ghost function SliceIndex(c: Launch, p: nat): nat
    requires c.Valid() && c.HoldsRow(p)
  {
    c.PartialRow(p).b * c.splits + PartialSplit(c.rb, p)
  }

  /** Slice `z = b * splits + sp` computes exactly the partials of request `b` and split `sp`. */
  lemma SliceOwns(c: Launch, z: nat, p: nat)
    requires c.Valid() && z < c.x.Requests() * c.splits && p < c.splits * c.rb * HEADS && c.HoldsRow(p)
    ensures SliceIndex(c, p) == z
            <==> EarlierPartial(c, z / c.splits, z - z / c.splits * c.splits, KV_HEADS, 0, p)
  {
    SplitInRange(c, p);
    DivModUnique(c.PartialRow(p).b, PartialSplit(c.rb, p), c.splits);
  }

  lemma SliceInGrid(c: Launch, p: nat)
    requires c.Valid() && p < c.splits * c.rb * HEADS && c.HoldsRow(p)
    ensures SliceIndex(c, p) < c.x.Requests() * c.splits
  {
    SplitInRange(c, p);
    MulMono(c.PartialRow(p).b + 1, c.x.Requests(), c.splits);
    assert (c.PartialRow(p).b + 1) * c.splits == c.PartialRow(p).b * c.splits + c.splits;
  }

  /** The launch of `fa_main` when KV is split: every partial of every active row is right before
      `fa_combine` starts. */
  method LaunchMainSplit(c: Launch, tiles: nat, ps: Partials)
    requires c.Valid() && TilesCover(c, tiles)
    requires HoldsPartials(c, ps)
    modifies ps.buf
    ensures forall p :: 0 <= p < ps.n && c.HoldsRow(p) ==> PartialGood(c, p, ps.Max(p), ps.Den(p), ps.Acc(p))
  {
    for z := 0 to c.x.Requests() * c.splits
      invariant forall p :: 0 <= p < ps.n && c.HoldsRow(p) && SliceIndex(c, p) < z ==>
        PartialGood(c, p, ps.Max(p), ps.Den(p), ps.Acc(p))
    {
      BlockOf(z, c.x.Requests(), c.splits);
      var b := z / c.splits;
      var sp := z - b * c.splits;
      LaunchSplit(c, tiles, b, sp, ps);
      forall p | 0 <= p < ps.n && c.HoldsRow(p)
        ensures SliceIndex(c, p) == z <==> EarlierPartial(c, b, sp, KV_HEADS, 0, p)
      {
        SliceOwns(c, z, p);
      }
    }
    forall p | 0 <= p < ps.n && c.HoldsRow(p) ensures SliceIndex(c, p) < c.x.Requests() * c.splits {
      SliceInGrid(c, p);
    }
  }

  ghost predicate RequestsDone(c: Launch, b: nat, g: nat)
    requires c.Valid()
  {
    g / HEADS < c.x.Active() && RowAt(c.x, g).b < b
  }

  /** The launch of `fa_main` on the direct path (one slice per request). */
  method LaunchMainDirect(c: Launch, tiles: nat, out: array<Vec>)
    requires c.Valid() && c.splits == 1 && TilesCover(c, tiles) && out.Length == c.x.slots * HEADS
    modifies out
    ensures forall g :: 0 <= g < out.Length ==>
      DirectAfter(c, g / HEADS < c.x.Active(), g, old(out[g]), out[g])
  {
    for z := 0 to c.x.Requests()
      invariant forall g :: 0 <= g < out.Length ==>
        DirectAfter(c, RequestsDone(c, z, g), g, old(out[g]), out[g])
    {
      LaunchDirect(c, tiles, z, out);
    }
  }

  // ------------------------------------------------------------------ fa_combine

  /** The merge has consumed the splits before `sp`. */
  ghost predicate Merged(c: Launch, w: Row, sp: nat, m: Ext, l: real, acc: Vec)
    requires c.Valid() && IsRow(c.x, w)
  {
    var hi := SplitLow(c.x.seqk[w.b], c.splits, sp);
    && Carries(c.e, m, l, Sum(Weights(c.x, c.e, c.qscl, w), 0, hi))
    && forall d :: 0 <= d < HEAD_DIM ==> Carries(c.e, m, acc[d], Sum(WeightedValues(c.x, c.e, c.qscl, w, d), 0, hi))
  }

  function MergeVec(e: real -> real, m: Ext, n: Ext, acc: Vec, k: Ext, o: Vec): Vec
    requires n.Fin?
  {
    seq(HEAD_DIM, d requires 0 <= d < HEAD_DIM => MergedValue(e, m, n, acc[d], k, o[d]))
  }

  lemma Extend(c: Launch, w: Row, sp: nat, f: int -> real)
    requires c.Valid() && IsRow(c.x, w) && sp < c.splits
    ensures
      var kv := c.x.seqk[w.b];
      Sum(f, 0, SplitLow(kv, c.splits, sp + 1))
      == Sum(f, 0, SplitLow(kv, c.splits, sp)) + Sum(f, SplitLow(kv, c.splits, sp), SplitLow(kv, c.splits, sp + 1))
  {
    SplitsPartition(c.x.seqk[w.b], c.splits, sp);
    SumSplit(f, 0, SplitLow(c.x.seqk[w.b], c.splits, sp), SplitLow(c.x.seqk[w.b], c.splits, sp + 1));
  }

  /** Skipping a -INF mark is right: that split contributes nothing. */
  lemma SkipSplit(c: Launch, w: Row, sp: nat, m: Ext, l: real, acc: Vec, l2: real, o2: Vec)
    requires c.Valid() && IsRow(c.x, w) && sp < c.splits && Merged(c, w, sp, m, l, acc)
    requires PartialOk(c, sp, w, NegInf, l2, o2)
    ensures Merged(c, w, sp + 1, m, l, acc)
  {
    Extend(c, w, sp, Weights(c.x, c.e, c.qscl, w));
    forall d | 0 <= d < HEAD_DIM
      ensures Carries(c.e, m, acc[d],
                      Sum(WeightedValues(c.x, c.e, c.qscl, w, d), 0, SplitLow(c.x.seqk[w.b], c.splits, sp + 1)))
    {
      Extend(c, w, sp, WeightedValues(c.x, c.e, c.qscl, w, d));
    }
  }

  /** One component of the fold: the denominator, or one output coordinate. */
  lemma FoldOne(c: Launch, w: Row, sp: nat, f: int -> real, m: Ext, x: real, m2: Ext, x2: real)
    requires c.Valid() && IsRow(c.x, w) && sp < c.splits && m2.Fin?
    requires var kv := c.x.seqk[w.b];
      && Carries(c.e, m, x, Sum(f, 0, SplitLow(kv, c.splits, sp)))
      && Carries(c.e, m2, x2, Sum(f, SplitLow(kv, c.splits, sp), SplitLow(kv, c.splits, sp + 1)))
    ensures Carries(c.e, ExtMax(m, m2), MergedValue(c.e, m, ExtMax(m, m2), x, m2, x2),
                    Sum(f, 0, SplitLow(c.x.seqk[w.b], c.splits, sp + 1)))
  {
    var kv := c.x.seqk[w.b];
    Extend(c, w, sp, f);
    MergeStep(c.e, m, x, Sum(f, 0, SplitLow(kv, c.splits, sp)),
              m2, x2, Sum(f, SplitLow(kv, c.splits, sp), SplitLow(kv, c.splits, sp + 1)),
              Sum(f, 0, SplitLow(kv, c.splits, sp + 1)));
  }

  /** Folding a finite partial adds its split's columns, whatever maxima the two sides carry. */
  lemma FoldSplit(c: Launch, w: Row, sp: nat, m: Ext, l: real, acc: Vec, m2: Ext, l2: real, o2: Vec)
    requires c.Valid() && IsRow(c.x, w) && sp < c.splits && m2.Fin? && Merged(c, w, sp, m, l, acc)
    requires PartialOk(c, sp, w, m2, l2, o2)
    ensures Merged(c, w, sp + 1, ExtMax(m, m2), MergedValue(c.e, m, ExtMax(m, m2), l, m2, l2),
                   MergeVec(c.e, m, ExtMax(m, m2), acc, m2, o2))
  {
    FoldOne(c, w, sp, Weights(c.x, c.e, c.qscl, w), m, l, m2, l2);
    forall d | 0 <= d < HEAD_DIM
      ensures Carries(c.e, ExtMax(m, m2), MergeVec(c.e, m, ExtMax(m, m2), acc, m2, o2)[d],
                      Sum(WeightedValues(c.x, c.e, c.qscl, w, d), 0, SplitLow(c.x.seqk[w.b], c.splits, sp + 1)))
    {
      FoldOne(c, w, sp, WeightedValues(c.x, c.e, c.qscl, w, d), m, acc[d], m2, o2[d]);
    }
  }

  ghost predicate AllPartialsGood(c: Launch, ps: Partials)
    requires c.Valid() && HoldsPartials(c, ps)
    reads ps.buf
  {
    forall p :: 0 <= p < ps.n && c.HoldsRow(p) ==> PartialGood(c, p, ps.Max(p), ps.Den(p), ps.Acc(p))
  }

  /** Where `fa_combine` finds the partial of row `g` and split `sp`. */
  lemma PartialOfRow(c: Launch, sp: nat, g: nat)
    requires c.Valid() && sp < c.splits && g / HEADS < c.x.Active()
    ensures
      var p := PartialIndex(c.rb, sp, g / HEADS, g % HEADS);
      && p < c.splits * c.rb * HEADS && c.HoldsRow(p)
      && PartialSplit(c.rb, p) == sp && c.PartialRow(p) == RowAt(c.x, g)
  {
    PartialDecodes(c.rb, sp, g / HEADS, g % HEADS);
  }

  /** One warp of `fa_combine`: fold the partials of one row in split order, then normalise. */
  method MergeRow(c: Launch, g: nat, ps: Partials) returns (v: Vec)
    requires c.Valid() && g / HEADS < c.x.Active()
    requires HoldsPartials(c, ps) && AllPartialsGood(c, ps)
    ensures v == KernelRow(c.x, c.e, c.qscl, RowAt(c.x, g))
  {
    ghost var w := RowAt(c.x, g);
    var m, l, acc := NegInf, 0.0, Zeros();
    SplitsPartition(c.x.seqk[w.b], c.splits, 0);
    for sp := 0 to c.splits
      invariant Merged(c, w, sp, m, l, acc)
    {
      var p := PartialIndex(c.rb, sp, g / HEADS, g % HEADS);
      PartialOfRow(c, sp, g);
      assert PartialGood(c, p, ps.Max(p), ps.Den(p), ps.Acc(p));
      var m2 := ps.Max(p);
      if m2 == NegInf {
        SkipSplit(c, w, sp, m, l, acc, ps.Den(p), ps.Acc(p));
        continue;
      }
      var n := ExtMax(m, m2);
      FoldSplit(c, w, sp, m, l, acc, m2, ps.Den(p), ps.Acc(p));
      l, acc := MergedValue(c.e, m, n, l, m2, ps.Den(p)), MergeVec(c.e, m, n, acc, m2, ps.Acc(p));
      m := n;
    }
    NormaliseRow(c.x, c.e, c.qscl, w, m, l, acc);
    v := Normalise(l, acc);
  }

  /** What the merge leaves at `g`: the row's softmax average, or zero on a padding row. */
  ghost function Combined(c: Launch, g: nat): Vec
    requires c.Valid()
  {
    if g / HEADS < c.x.Active() then KernelRow(c.x, c.e, c.qscl, RowAt(c.x, g)) else Zeros()
  }

  /** One warp of `fa_combine`: an active row is merged, a padding row is zeroed. */
  method CombineOne(c: Launch, g: nat, ps: Partials) returns (v: Vec)
    requires c.Valid()
    requires HoldsPartials(c, ps) && AllPartialsGood(c, ps)
    ensures v == Combined(c, g)
  {
    if g / HEADS >= c.x.Active() {
      v := Zeros();
    } else {
      v := MergeRow(c, g, ps);
    }
  }

  /** `fa_combine`, over all slots and heads. */
  method FaCombine(c: Launch, out: array<Vec>, ps: Partials)
    requires c.Valid() && out.Length == c.x.slots * HEADS
    requires HoldsPartials(c, ps) && AllPartialsGood(c, ps)
    modifies out
    ensures forall g :: 0 <= g < out.Length ==> out[g] == Combined(c, g)
  {
    for g := 0 to out.Length
      invariant forall g' :: 0 <= g' < g ==> out[g'] == Combined(c, g')
      invariant AllPartialsGood(c, ps)
    {
      var v := CombineOne(c, g, ps);
      out[g] := v;
    }
  }

  // ------------------------------------------------------------------ zero_inactive

  /** `zero_inactive`: blocks of four slot rows; active rows are skipped. */
  method ZeroInactive(x: Batch, out: array<Vec>)
    requires x.Valid() && out.Length == x.slots * HEADS
    modifies out
    ensures forall g :: 0 <= g < out.Length ==>
      out[g] == if g / HEADS >= x.Active() then Zeros() else old(out[g])
  {
    for block := 0 to (x.slots + 3) / 4
      invariant forall g :: 0 <= g < out.Length ==>
        out[g] == if x.Active() <= g / HEADS < 4 * block then Zeros() else old(out[g])
    {
      var row0 := 4 * block;
      var rowe := Min(row0 + 4, x.slots);
      for r := row0 to rowe
        invariant forall g :: 0 <= g < out.Length ==>
          out[g] == if x.Active() <= g / HEADS < r then Zeros() else old(out[g])
      {
        if r < x.Active() { continue; }
        forall h | 0 <= h < HEADS { out[r * HEADS + h] := Zeros(); }
      }
    }
  }

  // ------------------------------------------------------------------ the whole operator

  /** What the launches of `Model.forward` leave at `g` of an output buffer that held `before`. */
  ghost function Final(c: Launch, g: nat, before: Vec): Vec
    requires c.Valid()
  {
    if g / HEADS >= c.x.Active() then Zeros()
    else if c.splits == 1 && !DirectStores(c.x, RowAt(c.x, g)) then before
    else KernelRow(c.x, c.e, c.qscl, RowAt(c.x, g))
  }

  /** The launch sequence of `Model.forward`. `out` and the partial buffers start with arbitrary
      contents, as `torch.empty` leaves them. */
  method Forward(c: Launch, tiles: nat, out: array<Vec>, ps: Partials)
    requires c.Valid() && TilesCover(c, tiles) && out.Length == c.x.slots * HEADS
    requires c.splits > 1 ==> HoldsPartials(c, ps)
    modifies out, ps.buf
    ensures forall g :: 0 <= g < out.Length ==> out[g] == Final(c, g, old(out[g]))
  {
    if c.splits == 1 {
      ZeroInactive(c.x, out);
      LaunchMainDirect(c, tiles, out);
    } else {
      LaunchMainSplit(c, tiles, ps);
      FaCombine(c, out, ps);
    }
  }

  /** Refinement, with no assumption on the lengths of the requests: wherever the reference is a
      number the kernel agrees with it for every number of splits, except that the direct path
      leaves the rows of a request without KV columns unwritten. */
  lemma ForwardMatchesReference(c: Launch, log2e: real, scale: real, g: nat, before: Vec)
    requires c.Valid() && c.qscl == scale * log2e && g < c.x.slots * HEADS
    requires RefOut(c.x, c.e, log2e, scale, g).Num?
    requires c.splits > 1 || g / HEADS >= c.x.Active() || c.x.seqk[RowAt(c.x, g).b] > 0
    ensures Final(c, g, before) == RefOut(c.x, c.e, log2e, scale, g).value
  {
    if g / HEADS < c.x.Active() {
      var w := RowAt(c.x, g);
      KernelRowIsReference(c.x, c.e, log2e, scale, w);
    }
  }

  /** The exception is exact: the kernel equals the reference's number at `g` whatever the output
      buffer held iff the direct path is not used, or the slot is padding, or its request has KV. */
  lemma ExactlyWhenWritten(c: Launch, log2e: real, scale: real, g: nat)
    requires c.Valid() && c.qscl == scale * log2e && g < c.x.slots * HEADS
    requires RefOut(c.x, c.e, log2e, scale, g).Num?
    ensures (forall before: Vec :: Final(c, g, before) == RefOut(c.x, c.e, log2e, scale, g).value)
            <==> c.splits > 1 || g / HEADS >= c.x.Active() || c.x.seqk[RowAt(c.x, g).b] > 0
  {
    if c.splits > 1 || g / HEADS >= c.x.Active() || c.x.seqk[RowAt(c.x, g).b] > 0 {
      forall before: Vec ensures Final(c, g, before) == RefOut(c.x, c.e, log2e, scale, g).value {
        ForwardMatchesReference(c, log2e, scale, g, before);
      }
    } else {
      var v: Vec := RefOut(c.x, c.e, log2e, scale, g).value;
      var other: Vec := v[0 := v[0] + 1.0];
      assert other[0] != v[0];
      assert Final(c, g, other) == other;
    }
  }

  /** One request with one query and no KV columns, computed without splitting. */
  function NoColumns(): Launch {
    Launch(Batch(seq(HEADS, g => Zeros()), [], [], [0, 1], [0], [[]], 1), y => 1.0, 1.0, 1, 1)
  }

  /** The failing family is not empty: there the reference is zero and the buffer keeps its contents. */
  lemma EmptyRequestKeepsBuffer()
    ensures NoColumns().Valid() && RefOut(NoColumns().x, NoColumns().e, 1.0, 1.0, 0) == Num(Zeros())
    ensures forall before: Vec :: Final(NoColumns(), 0, before) == before
  {
    var c := NoColumns();
    assert RowAt(c.x, 0) == Row(0, 0, 0);
    assert forall d :: 0 <= d < HEAD_DIM ==> RefTerm(c.x, c.e, 1.0, 1.0, Row(0, 0, 0), d) == 0.0;
  }

  /** Under the operator's contract (every non-empty request has at least as many KV columns as
      queries) the whole output is the reference's, whatever the buffers held. */
  lemma ContractForward(c: Launch, log2e: real, scale: real, g: nat, before: Vec)
    requires c.Valid() && c.qscl == scale * log2e && g < c.x.slots * HEADS
    requires forall b :: 0 <= b < c.x.Requests() && c.x.QLen(b) > 0 ==> c.x.QLen(b) <= c.x.seqk[b]
    ensures RefOut(c.x, c.e, log2e, scale, g) == Num(Final(c, g, before))
  {
    ForwardMatchesReference(c, log2e, scale, g, before);
  }
}
