/** The integer geometry of one thread block of `fa_main`: which KV columns its split owns, which
    tiles it visits, and which tiles may skip the causal mask. */
module SplitGeometry {

  const NTILE := 64
  const POSITIONS := 8    // query positions per block

  function Min(a: int, b: int): int { if a < b then a else b }
  function Max(a: int, b: int): int { if a < b then b else a }

  function Pages(kv: nat): nat { (kv + NTILE - 1) / NTILE }

  function PagesPerSplit(kv: nat, splits: nat): nat
    requires splits >= 1
  {
    (Pages(kv) + splits - 1) / splits
  }

  function SplitStart(kv: nat, splits: nat, sp: nat): nat
    requires splits >= 1
  {
    sp * PagesPerSplit(kv, splits) * NTILE
  }

  function SplitEnd(kv: nat, splits: nat, sp: nat): nat
    requires splits >= 1
  {
    Min(kv, SplitStart(kv, splits, sp) + PagesPerSplit(kv, splits) * NTILE)
  }

  /** Where the columns owned by splits before `sp` end. */
  function SplitLow(kv: nat, splits: nat, sp: nat): nat
    requires splits >= 1
  {
    Min(kv, SplitStart(kv, splits, sp))
  }

  /** The numbers `fa_main` derives for one block, from its request's lengths, its split and its
      query tile. */
  datatype Block = Block(kv: nat, qlen: nat, splits: nat, sp: nat, i0: nat) {
    predicate Valid() { splits >= 1 && sp < splits && i0 < qlen && i0 % POSITIONS == 0 }

    function Start(): nat requires Valid() { SplitStart(kv, splits, sp) }
    function End(): nat requires Valid() { SplitEnd(kv, splits, sp) }
    function LimMin(): int { kv - qlen + i0 }
    function LimMax(): int { Min(kv - 1, LimMin() + 7) }
    function CEnd(): int requires Valid() { Min(End(), LimMax() + 1) }
    function CUnmasked(): int requires Valid() { Min(LimMin(), End() - 1) }

    function NFull(): nat requires Valid() {
      if CUnmasked() + 1 > Start() then (CUnmasked() + 1 - Start()) / NTILE else 0
    }

    function NTiles(): nat requires Valid() {
      if CEnd() > Start() then (CEnd() - Start() + NTILE - 1) / NTILE else 0
    }

    /** The query position of folded row `r`, clamped to the request's last one. */
    function Position(r: nat): nat requires Valid() { Min(i0 + r / 8, qlen - 1) }

    /** The last column folded row `r` may see. */
    function Limit(r: nat): int requires Valid() { kv - qlen + Position(r) }

    /** The causal and split mask of the kernel, applied in tile `tile` to column `n0 + c`. */
    predicate Masks(tile: nat, r: nat, c: nat) requires Valid() {
      tile >= NFull() && (Start() + tile * NTILE + c > Limit(r) || Start() + tile * NTILE + c >= End())
    }
  }

  lemma MulMono(a: nat, b: nat, k: nat)
    requires a <= b
    ensures a * k <= b * k
  {
  }

  lemma PagesEnough(kv: nat, splits: nat)
    requires splits >= 1
    ensures PagesPerSplit(kv, splits) * splits >= Pages(kv)
    ensures Pages(kv) * NTILE >= kv
  {
    var p, s := Pages(kv), splits;
    assert p + s - 1 == s * ((p + s - 1) / s) + (p + s - 1) % s;
  }

  /** The splits partition `[0, kv)`: each begins where the previous one ends, the first at 0 and
      the last ends at `kv`; each begins on a page boundary. */
  lemma SplitsPartition(kv: nat, splits: nat, sp: nat)
    requires splits >= 1 && sp < splits
    ensures SplitLow(kv, splits, 0) == 0 && SplitLow(kv, splits, splits) == kv
    ensures SplitEnd(kv, splits, sp) == SplitLow(kv, splits, sp + 1)
    ensures SplitLow(kv, splits, sp) <= SplitEnd(kv, splits, sp) <= kv
    ensures SplitStart(kv, splits, sp) % NTILE == 0
  {
    var pps := PagesPerSplit(kv, splits);
    PagesEnough(kv, splits);
    assert (sp + 1) * pps * NTILE == sp * pps * NTILE + pps * NTILE;
    assert splits * pps == pps * splits;
    MulMono(Pages(kv), pps * splits, NTILE);
  }

  /** The pages are spread evenly: no split is longer than it must be for all of them to be covered. */
  lemma SplitsAreShort(kv: nat, splits: nat)
    requires splits >= 1 && kv > 0
    ensures (PagesPerSplit(kv, splits) - 1) * splits < Pages(kv) && (Pages(kv) - 1) * NTILE < kv <= Pages(kv) * NTILE
  {
    var p, s := Pages(kv), splits;
    assert p + s - 1 == s * ((p + s - 1) / s) + (p + s - 1) % s;
  }

  predicate InSplit(kv: nat, splits: nat, sp: nat, j: nat)
    requires splits >= 1
  {
    SplitStart(kv, splits, sp) <= j < SplitEnd(kv, splits, sp)
  }

  lemma {:induction false} SomeSplit(kv: nat, splits: nat, n: nat, j: nat)
    requires splits >= 1 && n <= splits && j < SplitLow(kv, splits, n)
    ensures exists sp :: 0 <= sp < n && InSplit(kv, splits, sp, j)
  {
    SplitsPartition(kv, splits, 0);
    SplitsPartition(kv, splits, n - 1);
    if j < SplitLow(kv, splits, n - 1) {
      SomeSplit(kv, splits, n - 1, j);
    } else {
      assert InSplit(kv, splits, n - 1, j);
    }
  }

  /** Every column lies in exactly one split's range. */
  lemma ColumnInOneSplit(kv: nat, splits: nat, j: nat)
    requires splits >= 1 && j < kv
    ensures exists sp :: 0 <= sp < splits && InSplit(kv, splits, sp, j)
    ensures forall s, s' | 0 <= s < splits && 0 <= s' < splits ::
      InSplit(kv, splits, s, j) && InSplit(kv, splits, s', j) ==> s == s'
  {
    SplitsPartition(kv, splits, 0);
    SomeSplit(kv, splits, splits, j);
    forall s, s' | 0 <= s < s' < splits && InSplit(kv, splits, s, j) ensures !InSplit(kv, splits, s', j) {
      SplitsPartition(kv, splits, s);
      LowMono(kv, splits, s + 1, s');
    }
  }

  lemma LowMono(kv: nat, splits: nat, a: nat, b: nat)
    requires splits >= 1 && a <= b
    ensures SplitLow(kv, splits, a) <= SplitLow(kv, splits, b)
  {
    MulMono(a, b, PagesPerSplit(kv, splits));
  }

  lemma TileArithmetic(start: nat, cend: nat, kv: nat, t: nat)
    requires start % NTILE == 0 && start < cend <= kv && t < (cend - start + NTILE - 1) / NTILE
    ensures start + t * NTILE < cend
    ensures start + t * NTILE + NTILE < cend <==> t + 1 < (cend - start + NTILE - 1) / NTILE
    ensures (start + t * NTILE) % NTILE == 0 && (start + t * NTILE) / NTILE < Pages(kv)
  {
  }

  /** A block visits its split's pages in order: each tile it issues lies inside the split, and
      the prefetch test `n0 + NTILE < c_end` says exactly that a next tile exists. */
  lemma TilesInside(g: Block, t: nat)
    requires g.Valid() && t < g.NTiles()
    ensures g.Start() + t * NTILE < g.CEnd() <= g.End() <= g.kv
    ensures g.Start() + t * NTILE + NTILE < g.CEnd() <==> t + 1 < g.NTiles()
    ensures (g.Start() + t * NTILE) % NTILE == 0
    ensures (g.Start() + t * NTILE) / NTILE < Pages(g.kv)
  {
    SplitsPartition(g.kv, g.splits, g.sp);
    TileArithmetic(g.Start(), g.CEnd(), g.kv, t);
  }

  /** No stored row can see a column at or after `c_end`; so the zero-filled rest of the last tile
      is invisible to every row. */
  lemma BeyondEnd(g: Block, r: nat, j: int)
    requires g.Valid() && r < 64 && j >= g.CEnd()
    ensures j > g.Limit(r) || j >= g.End()
  {
    assert g.Position(r) <= g.i0 + 7;
  }

  /** The mask test decides visibility exactly: on a masked tile it is applied, and the first
      `NFull` tiles contain nothing any row must not see. */
  lemma MaskExact(g: Block, t: nat, r: nat, c: nat)
    requires g.Valid() && t < g.NTiles() && r < 64 && c < NTILE
    ensures
      var j := g.Start() + t * NTILE + c;
      && (g.Masks(t, r, c) <==> (j > g.Limit(r) || j >= g.End()))
      && (!g.Masks(t, r, c) ==> j < g.CEnd())
  {
    var j := g.Start() + t * NTILE + c;
    assert g.Limit(r) >= g.LimMin();
    if t < g.NFull() {
      assert (t + 1) * NTILE <= g.NFull() * NTILE;
      assert g.NFull() * NTILE <= g.CUnmasked() + 1 - g.Start();
    }
    if j >= g.CEnd() { BeyondEnd(g, r, j); }
  }

  /** No tile is computed or masked in vain: the last column before `c_end` is visible to the block's
      last row, and the first tile that is masked holds a column its first row must not see. */
  lemma NothingInVain(g: Block)
    requires g.Valid() && g.NTiles() > 0
    ensures g.CEnd() - 1 <= g.Limit(63) && g.CEnd() - 1 < g.End()
    ensures g.NFull() < g.NTiles() ==> exists c :: 0 <= c < NTILE && g.Masks(g.NFull(), 0, c)
  {
    if g.NFull() < g.NTiles() {
      var c := Max(0, g.CUnmasked() + 1 - (g.Start() + g.NFull() * NTILE));
      assert g.Masks(g.NFull(), 0, c);
    }
  }

  /** The tiles reach every column some row of the block may see. */
  lemma TilesReach(g: Block)
    requires g.Valid()
    ensures g.Start() + g.NTiles() * NTILE >= g.CEnd()
  {
  }

  /** A block does work for a row as soon as that row sees a column of its split. */
  lemma VisibleMeansTiles(g: Block, r: nat, j: nat)
    requires g.Valid() && r < 64 && g.Start() <= j < g.End() && j <= g.Limit(r)
    ensures g.NTiles() > 0
  {
    if g.CEnd() <= j { BeyondEnd(g, r, j); }
  }

  /** On the direct path (one split) a block stores its rows iff its request has a KV column and
      its loosest row's causal limit is not negative; otherwise it returns early and the rows keep
      whatever `torch.empty_like` left there. */
  lemma DirectBlockWorks(g: Block)
    requires g.Valid() && g.splits == 1
    ensures g.Start() == 0 && g.End() == g.kv
    ensures g.NTiles() > 0 <==> g.kv > 0 && g.qlen <= g.kv + g.i0 + 7
  {
    assert g.sp == 0;
    assert PagesPerSplit(g.kv, 1) == Pages(g.kv);
  }
}
