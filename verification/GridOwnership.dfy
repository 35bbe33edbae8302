/** Who stores what in the whole grid of `fa_main`: requests, splits, kv heads, tiles, threads and
    accumulator elements together. */
module GridOwnership {
  import opened SplitGeometry
  import opened PagedBatch
  import opened FaMainTile
  import opened FlashAttention
  import opened Swizzle

  /** One accumulator element of one thread: its half of the lane's two rows, its pair and its position
      in the pair. */
  datatype Element = Element(tid: bv16, half: bv16, j: bv16, e: bv16)
  {
    predicate Exists() { tid < THREADS && half < 2 && j < 32 && e < 2 }

    function RowInBlock(): nat { LaneRow(tid, half) as nat }

    function Dim(): nat { LaneDim(tid, j, e) as nat }

    /** The lane of a quad that stores maxima and denominators; one element stands for the lane. */
    predicate Leads() { tid & 3 == 0 && j == 0 && e == 0 }
  }

  /** One element of one block. */
  datatype Writer = Writer(b: nat, kvg: nat, t: nat, el: Element)
  {
    function RowInBlock(): nat { el.RowInBlock() }

    function QueryPosition(): nat { t * POSITIONS + RowInBlock() / 8 }

    function Head(): nat { kvg * GROUP + RowInBlock() % 8 }

    predicate InGrid(x: Batch, tiles: nat) {
      && x.Request(b) && kvg < KV_HEADS && t < tiles && el.Exists()
    }

    /** The guard of every store, and the row of the output it is about. */
    predicate AimsAt(x: Batch, g: nat) {
      && x.Request(b) && QueryPosition() < x.QLen(b) && g == (x.cuq[b] + QueryPosition()) * HEADS + Head()
    }

    /** The same for the partials of split `sp`. */
    predicate AimsAtPartial(c: Launch, sp: nat, p: nat) {
      && c.x.Request(b) && QueryPosition() < c.x.QLen(b)
      && p == PartialIndex(c.rb, sp, c.x.cuq[b] + QueryPosition(), Head())
    }

    /** The writer's block of split `sp` has a tile; otherwise it returns before the epilogue. */
    ghost predicate Works(c: Launch, sp: nat) {
      && TaskOf(c, b, sp, kvg, t).Valid() && TaskOf(c, b, sp, kvg, t).G().NTiles() > 0
    }

    /** The epilogue of the direct path stores element `d` of output row `g`. */
    ghost predicate StoresOutput(c: Launch, g: nat, d: nat) {
      c.splits == 1 && Works(c, 0) && AimsAt(c.x, g) && d == el.Dim()
    }

    /** The epilogue of the split path stores element `d` of partial row `p`. */
    ghost predicate StoresRow(c: Launch, sp: nat, p: nat, d: nat) {
      c.splits > 1 && Works(c, sp) && AimsAtPartial(c, sp, p) && d == el.Dim()
    }

    /** The epilogue of the split path stores maximum and denominator of partial `p`. */
    ghost predicate StoresMaximum(c: Launch, sp: nat, p: nat) {
      c.splits > 1 && Works(c, sp) && AimsAtPartial(c, sp, p) && el.Leads()
    }

    /** The early return of the split path marks partial `p` with -INF. */
    ghost predicate MarksEmpty(c: Launch, sp: nat, p: nat) {
      c.splits > 1 && !Works(c, sp) && AimsAtPartial(c, sp, p) && el.Leads()
    }
  }

  // Conversions are proved four bits at a time, which is what the solver can do quickly.

  lemma FourBits(n: nat)
    requires n < 16
    ensures (n as bv16) as nat == n && n as bv16 < 16
  {
  }

  lemma TwoDigits(hi: bv16, lo: bv16)
    requires hi < 16 && lo < 16
    ensures ((hi << 4) | lo) as nat == 16 * (hi as nat) + lo as nat
  {
  }

  lemma Back(a: bv16)
    ensures (a as nat) as bv16 == a
  {
  }

  lemma SmallBits(n: nat)
    requires n < 256
    ensures (n as bv16) as nat == n
  {
    var hi, lo := (n / 16) as bv16, (n % 16) as bv16;
    FourBits(n / 16);
    FourBits(n % 16);
    TwoDigits(hi, lo);
    Back((hi << 4) | lo);
  }

  lemma SameBits(a: bv16, n: nat)
    requires n < 256
    ensures a as nat == n <==> a == n as bv16
  {
    SmallBits(n);
    Back(a);
  }

  lemma SmallRow(n: nat)
    requires n < FOLDED
    ensures n as bv16 < ROWS
  {
    SmallBits(n);
  }

  lemma SmallDim(n: nat)
    requires n < HEAD_DIM
    ensures n as bv16 < 256
  {
    SmallBits(n);
  }

  function BitsElement(r: bv16, k: bv16): Element {
    Element(((r >> 4) << 5) | ((r & 7) << 2) | ((k >> 1) & 3), (r >> 3) & 1, k >> 3, k & 1)
  }

  /** The element that holds folded row `n` and head dimension `d`. */
  function ElementOf(n: nat, d: nat): Element
    requires n < FOLDED && d < HEAD_DIM
  {
    BitsElement(n as bv16, d as bv16)
  }

  lemma BitsElementIs(r: bv16, k: bv16, el: Element)
    requires r < ROWS && k < 256
    ensures BitsElement(r, k).Exists()
    ensures el.Exists() ==> LaneRow(el.tid, el.half) < ROWS && LaneDim(el.tid, el.j, el.e) < 256
    ensures el.Exists() ==>
      (LaneRow(el.tid, el.half) == r && LaneDim(el.tid, el.j, el.e) == k <==> el == BitsElement(r, k))
  {
    if el.Exists() { OneWriterPerElement(r, k, el.tid, el.half, el.j, el.e); }
  }

  /** The elements of a block's threads and the entries of its 64 by 256 tile are in bijection. */
  lemma ElementIs(n: nat, d: nat, el: Element)
    requires n < FOLDED && d < HEAD_DIM
    ensures ElementOf(n, d).Exists()
    ensures el.Exists() ==> (el.RowInBlock() == n && el.Dim() == d <==> el == ElementOf(n, d))
  {
    SmallRow(n);
    SmallDim(d);
    BitsElementIs(n as bv16, d as bv16, el);
    SameBits(LaneRow(el.tid, el.half), n);
    SameBits(LaneDim(el.tid, el.j, el.e), d);
  }

  lemma ElementInTile(el: Element)
    requires el.Exists()
    ensures el.RowInBlock() < FOLDED && el.Dim() < HEAD_DIM
  {
    BitsElementIs(0, 0, el);
  }

  lemma BlockPosition(t: nat, kvg: nat, r: nat)
    requires r < FOLDED && kvg < KV_HEADS
    ensures
      var i, h := t * POSITIONS + r / 8, kvg * GROUP + r % 8;
      h < HEADS && h / GROUP == kvg && i / POSITIONS == t && i % POSITIONS * 8 + h % 8 == r
  {
  }

  lemma StoredRow(x: Batch, w: Writer, g: nat)
    requires x.Valid() && w.AimsAt(x, g) && w.Head() < HEADS
    ensures g / HEADS < x.Active() && RowAt(x, g) == Row(w.b, w.QueryPosition(), w.Head())
  {
    var row := Row(w.b, w.QueryPosition(), w.Head());
    assert IsRow(x, row) && Slot(x, row) == g;
    RowAtSlot(x, row);
  }

  /** A store goes to the row it should: the block owns that row, and the value comes from the
      accumulator of the same folded row. */
  lemma StoreHitsOwnRow(c: Launch, tiles: nat, w: Writer, g: nat)
    requires c.Valid() && w.InGrid(c.x, tiles) && w.AimsAt(c.x, g)
    ensures g / HEADS < c.x.Active() && RowAt(c.x, g) == Row(w.b, w.QueryPosition(), w.Head())
    ensures Owns(w.b, w.kvg, w.t, RowAt(c.x, g)) && w.RowInBlock() == Folded(RowAt(c.x, g))
    ensures Stores(c, w.b, w.kvg, w.t, g) && w.RowInBlock() == Source(c, w.b, w.t, g)
  {
    ElementInTile(w.el);
    BlockPosition(w.t, w.kvg, w.RowInBlock());
    StoredRow(c.x, w, g);
    StoresOwned(c, w.b, w.kvg, w.t, g);
  }

  /** The element's owner. */
  ghost function WriterOf(c: Launch, g: nat, d: nat): Writer
    requires c.Valid() && g / HEADS < c.x.Active() && d < HEAD_DIM
  {
    var row := RowAt(c.x, g);
    Writer(row.b, row.h / GROUP, row.i / POSITIONS, ElementOf(Folded(row), d))
  }

  lemma BlockOfRow(row: Row, tiles: nat)
    requires row.h < HEADS && row.i < tiles * POSITIONS
    ensures row.h / GROUP < KV_HEADS && row.i / POSITIONS < tiles
    ensures row.i / POSITIONS * POSITIONS + Folded(row) / 8 == row.i
    ensures row.h / GROUP * GROUP + Folded(row) % 8 == row.h
  {
  }

  /** Every element of every active row is aimed at by its owner, and by nobody else. */
  lemma OnlyOwnerAims(c: Launch, tiles: nat, g: nat, d: nat, w: Writer)
    requires c.Valid() && w.InGrid(c.x, tiles) && d < HEAD_DIM
    ensures w.AimsAt(c.x, g) && d == w.el.Dim() <==> g / HEADS < c.x.Active() && w == WriterOf(c, g, d)
  {
    ElementInTile(w.el);
    if w.AimsAt(c.x, g) && d == w.el.Dim() {
      StoreHitsOwnRow(c, tiles, w, g);
      ElementIs(w.RowInBlock(), d, w.el);
    } else if g / HEADS < c.x.Active() && w == WriterOf(c, g, d) {
      OwnerAims(c, g, d);
    }
  }

  lemma OwnerAims(c: Launch, g: nat, d: nat)
    requires c.Valid() && g / HEADS < c.x.Active() && d < HEAD_DIM
    ensures WriterOf(c, g, d).AimsAt(c.x, g) && WriterOf(c, g, d).el.Dim() == d
  {
    var row := RowAt(c.x, g);
    ElementIs(Folded(row), d, ElementOf(Folded(row), d));
    BlockOfRow(row, row.i + 1);
  }

  lemma OwnerInGrid(c: Launch, tiles: nat, g: nat, d: nat)
    requires c.Valid() && TilesCover(c, tiles) && g / HEADS < c.x.Active() && d < HEAD_DIM
    ensures WriterOf(c, g, d).InGrid(c.x, tiles)
  {
    var row := RowAt(c.x, g);
    ElementIs(Folded(row), d, ElementOf(Folded(row), d));
    BlockOfRow(row, tiles);
  }

  /** The stores of one block are those of its lanes: whatever row it stores, some element of each of its
      dimensions aims at it. */
  lemma BlockStoresAreLanes(c: Launch, b: nat, kvg: nat, t: nat, g: nat, d: nat)
    requires c.Valid() && b < c.x.Requests() && d < HEAD_DIM && Stores(c, b, kvg, t, g)
    ensures
      var w := WriterOf(c, g, d);
      w.b == b && w.kvg == kvg && w.t == t && w.AimsAt(c.x, g) && w.RowInBlock() == Source(c, b, t, g)
  {
    StoresOwned(c, b, kvg, t, g);
    OwnerAims(c, g, d);
    ElementIs(Folded(RowAt(c.x, g)), d, WriterOf(c, g, d).el);
  }

  // ------------------------------------------------------------------ the output

  /** The owner's block works on the direct path exactly if the row is stored at all. */
  lemma OwnerWorks(c: Launch, g: nat, d: nat)
    requires c.Valid() && c.splits == 1 && g / HEADS < c.x.Active() && d < HEAD_DIM
    ensures WriterOf(c, g, d).Works(c, 0) <==> DirectStores(c.x, RowAt(c.x, g))
  {
    var row, w := RowAt(c.x, g), WriterOf(c, g, d);
    BlockOfRow(row, row.i + 1);
    FoldedRow(c, w.b, 0, w.kvg, w.t, row);
    DirectBlockWorks(TaskOf(c, w.b, 0, w.kvg, w.t).G());
  }

  /** Over the whole grid: an element of the output is stored iff the direct path is used, its row is
      active and its block has a tile, and then by its owner alone, once. */
  lemma OutputStoredOnce(c: Launch, tiles: nat, g: nat, d: nat)
    requires c.Valid() && TilesCover(c, tiles) && d < HEAD_DIM
    ensures g / HEADS < c.x.Active() ==> WriterOf(c, g, d).InGrid(c.x, tiles)
    ensures forall w: Writer :: w.InGrid(c.x, tiles) ==>
      (w.StoresOutput(c, g, d) <==>
        && c.splits == 1 && g / HEADS < c.x.Active() && DirectStores(c.x, RowAt(c.x, g)) && w == WriterOf(c, g, d))
  {
    if g / HEADS < c.x.Active() {
      OwnerInGrid(c, tiles, g, d);
      if c.splits == 1 { OwnerWorks(c, g, d); }
    }
    forall w: Writer | w.InGrid(c.x, tiles)
      ensures w.AimsAt(c.x, g) && d == w.el.Dim() <==> g / HEADS < c.x.Active() && w == WriterOf(c, g, d)
    {
      OnlyOwnerAims(c, tiles, g, d, w);
    }
  }

  // ------------------------------------------------------------------ partials

  /** The output row a partial is for. */
  function OutputOf(c: Launch, p: nat): nat
    requires c.rb > 0
  {
    PartialSlot(c.rb, p) * HEADS + PartialHead(p)
  }

  /** A partial's store goes to the index that decodes to its split, slot and head. */
  lemma PartialStoreDecodes(c: Launch, tiles: nat, w: Writer, sp: nat, p: nat)
    requires c.Valid() && c.rb > 0 && w.InGrid(c.x, tiles)
    ensures w.AimsAtPartial(c, sp, p) <==>
      PartialSplit(c.rb, p) == sp && PartialSlot(c.rb, p) < c.x.Active() && w.AimsAt(c.x, OutputOf(c, p))
  {
    ElementInTile(w.el);
    if w.QueryPosition() < c.x.QLen(w.b) {
      assert c.x.cuq[w.b] + w.QueryPosition() < c.x.cuq[w.b + 1] <= c.x.Active();
      PartialDecodes(c.rb, sp, c.x.cuq[w.b] + w.QueryPosition(), w.Head());
      PartialEncodes(c, p);
    }
  }

  lemma PartialEncodes(c: Launch, p: nat)
    requires c.rb > 0
    ensures PartialIndex(c.rb, PartialSplit(c.rb, p), PartialSlot(c.rb, p), PartialHead(p)) == p
  {
    assert p / HEADS == p / HEADS / c.rb * c.rb + p / HEADS % c.rb;
  }

  /** Partial `p` belongs to split `sp` and to an active row. */
  ghost predicate IsPartialOf(c: Launch, sp: nat, p: nat)
    requires c.rb > 0
  {
    c.HoldsRow(p) && PartialSplit(c.rb, p) == sp
  }

  lemma OnlyOwnerAimsAtPartial(c: Launch, tiles: nat, sp: nat, p: nat, d: nat, w: Writer)
    requires c.Valid() && c.rb > 0 && w.InGrid(c.x, tiles) && d < HEAD_DIM
    ensures w.AimsAtPartial(c, sp, p) && d == w.el.Dim() <==>
      IsPartialOf(c, sp, p) && w == WriterOf(c, OutputOf(c, p), d)
  {
    PartialStoreDecodes(c, tiles, w, sp, p);
    OnlyOwnerAims(c, tiles, OutputOf(c, p), d, w);
  }

  /** Over the whole grid: an element of a partial's accumulator row is stored iff the split path is
      used, the partial is one of an active row and the owner's block has a tile, and then by the owner
      alone, once. All other rows stay as the buffer held them. */
  lemma PartialStoredOnce(c: Launch, tiles: nat, sp: nat, p: nat, d: nat)
    requires c.Valid() && c.rb > 0 && TilesCover(c, tiles) && sp < c.splits && d < HEAD_DIM
    ensures IsPartialOf(c, sp, p) ==> WriterOf(c, OutputOf(c, p), d).InGrid(c.x, tiles)
    ensures forall w: Writer :: w.InGrid(c.x, tiles) ==>
      (w.StoresRow(c, sp, p, d) <==>
        && c.splits > 1 && IsPartialOf(c, sp, p) && w == WriterOf(c, OutputOf(c, p), d) && w.Works(c, sp))
  {
    if IsPartialOf(c, sp, p) { OwnerInGrid(c, tiles, OutputOf(c, p), d); }
    forall w: Writer | w.InGrid(c.x, tiles)
      ensures w.AimsAtPartial(c, sp, p) && d == w.el.Dim() <==>
        IsPartialOf(c, sp, p) && w == WriterOf(c, OutputOf(c, p), d)
    {
      OnlyOwnerAimsAtPartial(c, tiles, sp, p, d, w);
    }
  }

  lemma FirstElementLeads(el: Element)
    requires el.Exists()
    ensures el.Dim() == 0 <==> el.Leads()
  {
    FirstBitsLead(el);
    Back(LaneDim(el.tid, el.j, el.e));
  }

  lemma FirstBitsLead(el: Element)
    requires el.Exists()
    ensures LaneDim(el.tid, el.j, el.e) == 0 <==> el.Leads()
  {
  }

  /** The owner's block of a split works or returns early, and either way its request has the position:
      the block is not one of the padding tiles. */
  lemma OwnerTask(c: Launch, sp: nat, p: nat, d: nat)
    requires c.Valid() && c.rb > 0 && sp < c.splits && d < HEAD_DIM && IsPartialOf(c, sp, p)
    ensures
      var w := WriterOf(c, OutputOf(c, p), d);
      TaskOf(c, w.b, sp, w.kvg, w.t).Valid()
  {
    var row, w := RowAt(c.x, OutputOf(c, p)), WriterOf(c, OutputOf(c, p), d);
    BlockOfRow(row, row.i + 1);
    FoldedRow(c, w.b, sp, w.kvg, w.t, row);
  }

  /** Over the whole grid: the maximum of every partial of every active row is stored by exactly one
      lane, the one that owns the row's first element. It is the -INF mark of the early return iff the
      owner's block has no tile; the denominator is stored with the other maxima, and only then. */
  lemma MaximumStoredOnce(c: Launch, tiles: nat, sp: nat, p: nat)
    requires c.Valid() && c.rb > 0 && TilesCover(c, tiles) && sp < c.splits
    ensures IsPartialOf(c, sp, p) ==>
      var w := WriterOf(c, OutputOf(c, p), 0);
      w.InGrid(c.x, tiles) && TaskOf(c, w.b, sp, w.kvg, w.t).Valid()
    ensures forall w: Writer :: w.InGrid(c.x, tiles) ==>
      (w.StoresMaximum(c, sp, p) <==>
        && c.splits > 1 && IsPartialOf(c, sp, p) && w == WriterOf(c, OutputOf(c, p), 0) && w.Works(c, sp))
    ensures forall w: Writer :: w.InGrid(c.x, tiles) ==>
      (w.MarksEmpty(c, sp, p) <==>
        && c.splits > 1 && IsPartialOf(c, sp, p) && w == WriterOf(c, OutputOf(c, p), 0) && !w.Works(c, sp))
  {
    if IsPartialOf(c, sp, p) {
      OwnerInGrid(c, tiles, OutputOf(c, p), 0);
      OwnerTask(c, sp, p, 0);
    }
    forall w: Writer | w.InGrid(c.x, tiles)
      ensures w.AimsAtPartial(c, sp, p) && w.el.Leads() <==>
        IsPartialOf(c, sp, p) && w == WriterOf(c, OutputOf(c, p), 0)
    {
      FirstElementLeads(w.el);
      OnlyOwnerAimsAtPartial(c, tiles, sp, p, 0, w);
    }
  }
}
