/** The host side of the operator: how many splits and blocks a geometry gets, where the pooled
    buffer holds the partials, and the whole forward pass from a model object. */
module LaunchPlan {
  import opened Softmax
  import opened SplitGeometry
  import opened PagedBatch
  import opened FlashAttention
  import opened PartialBuffer

  // ---- Merge warps per block --------------------------------------------------------------

  function Pow2(k: nat): nat { if k == 0 then 1 else 2 * Pow2(k - 1) }

  function BitLength(n: nat): nat { if n == 0 then 0 else 1 + BitLength(n / 2) }

  lemma {:induction false} BitLengthBounds(n: nat)
    requires n >= 1
    ensures BitLength(n) >= 1 && Pow2(BitLength(n) - 1) <= n < Pow2(BitLength(n))
  {
    if n >= 2 { BitLengthBounds(n / 2); }
  }

  lemma {:induction false} Pow2Mono(a: nat, b: nat)
    requires a <= b
    ensures Pow2(a) <= Pow2(b)
  {
    if a < b { Pow2Mono(a, b - 1); }
  }

  function CombWarps(warps: nat, sm: nat): nat { Min(8, Pow2(BitLength(Max(1, warps / Max(1, sm))) - 1)) }

  /** The merge kernel's warps per block are the largest power of two up to 8 that does not exceed
      the warps per SM. */
  lemma CombWarpsLargest(warps: nat, sm: nat)
    ensures
      var w, share := CombWarps(warps, sm), Max(1, warps / Max(1, sm));
      && w in {1, 2, 4, 8} && w <= share
      && forall k :: Pow2(k) <= share && Pow2(k) <= 8 ==> Pow2(k) <= w
  {
    var share := Max(1, warps / Max(1, sm));
    BitLengthBounds(share);
    var n := BitLength(share);
    forall k | Pow2(k) <= share && Pow2(k) <= 8 ensures Pow2(k) <= CombWarps(warps, sm) {
      if k >= n { Pow2Mono(n, k); } else { Pow2Mono(k, n - 1); }
    }
    if n >= 4 { Pow2Mono(3, n - 1); }
    assert Pow2(3) == 8;
  }

  function CombGrid(warps: nat, sm: nat): nat {
    CombWarpsLargest(warps, sm);
    (warps + CombWarps(warps, sm) - 1) / CombWarps(warps, sm)
  }

  lemma QuotientAtLeast(n: nat, w: nat, sm: nat)
    requires w >= 1 && w * sm <= n
    ensures (n + w - 1) / w >= sm
  {
    var q := (n + w - 1) / w;
    assert w * q + (n + w - 1) % w == n + w - 1;
    assert q < sm ==> w * (q + 1) <= w * sm;
  }

  /** With at least as many warps as SMs, every SM gets a merge block. */
  lemma CombGridFills(warps: nat, sm: nat)
    requires sm >= 1 && warps >= sm
    ensures CombGrid(warps, sm) >= sm
  {
    CombWarpsLargest(warps, sm);
    var w, share := CombWarps(warps, sm), warps / sm;
    DivMul(warps, sm);
    assert share >= 1;
    MulMono(w, share, sm);
    QuotientAtLeast(warps, w, sm);
  }

  /** The merge grid has no block without a warp to run. */
  lemma CombGridLeast(warps: nat, sm: nat)
    requires warps >= 1
    ensures (CombGrid(warps, sm) - 1) * CombWarps(warps, sm) < warps
  {
    CombWarpsLargest(warps, sm);
    GridLeast(warps, CombWarps(warps, sm));
  }

  lemma GridLeast(n: nat, w: nat)
    requires w in {1, 2, 4, 8} && n >= 1
    ensures ((n + w - 1) / w - 1) * w < n
  {
    if w == 1 {
    } else if w == 2 {
    } else if w == 4 {
    } else {
      assert w == 8;
    }
  }

  /** Every (slot row, head) pair belongs to exactly one warp of exactly one merge block. */
  lemma CombGridCovers(warps: nat, sm: nat, g: nat, block: nat, warp: nat)
    requires g < warps && warp < CombWarps(warps, sm)
    ensures
      var w := CombWarps(warps, sm);
      && w >= 1 && g / w < CombGrid(warps, sm) && g % w < w
      && (block * w + warp == g <==> block == g / w && warp == g % w)
  {
    CombWarpsLargest(warps, sm);
    GridReach(warps, CombWarps(warps, sm), g, block, warp);
  }

  lemma GridReach(n: nat, w: nat, g: nat, block: nat, warp: nat)
    requires w in {1, 2, 4, 8} && g < n && warp < w
    ensures g / w < (n + w - 1) / w
    ensures block * w + warp == g <==> block == g / w && warp == g % w
  {
    if w == 1 {
    } else if w == 2 {
    } else if w == 4 {
    } else {
      assert w == 8;
    }
  }

  // ---- Splits -----------------------------------------------------------------------------

  function CeilDiv(a: int, b: int): int
    requires b > 0
  {
    -((-a) / b)
  }

  lemma CeilDivBounds(a: int, b: int)
    requires b > 0
    ensures (CeilDiv(a, b) - 1) * b < a <= CeilDiv(a, b) * b
  {
    assert -a == b * ((-a) / b) + (-a) % b;
  }

  lemma CeilDivPositive(a: int, b: int)
    requires a > 0 && b > 0
    ensures CeilDiv(a, b) >= 1
  {
    CeilDivBounds(a, b);
    var q := CeilDiv(a, b);
    assert q <= 0 ==> q * b <= 0;
  }

  /** What the host knows about the model and the device. */
  datatype Device = Device(maxQ: nat, maxK: nat, sm: nat)

  /** The numbers the split choice looks at, for one (slots, batch) geometry. */
  datatype Geometry = Geometry(slots: nat, batch: nat, dev: Device) {
    function Tiles(): (t: nat)
      ensures t >= 1
    {
      Max(1, Min((dev.maxQ + POSITIONS - 1) / POSITIONS, (slots + POSITIONS - 1) / POSITIONS))
    }

    function BaseBlocks(): nat { Tiles() * KV_HEADS * batch }

    function PagesEstimate(): (p: nat)
      ensures p >= 1
    {
      Max(1, (dev.maxK + NTILE - 1) / NTILE)
    }

    function KvBytes(): nat { batch * dev.maxK * (KV_HEADS * HEAD_DIM * 4) }

    function RowsTotal(): nat { Min(slots, batch * dev.maxQ) * HEADS }

    /** The makespan estimate of `x` splits. */
    function Cost(x: nat): real
      requires dev.sm >= 1 && x >= 1
    {
      (CeilDiv(BaseBlocks() * x, dev.sm) * CeilDiv(PagesEstimate(), x)) as real * 3.0 +
      if x > 1 then (x * RowsTotal()) as real * 0.00114 else 0.0
    }
  }

  /** The numbers the choice looks at. The tiles are the fewest, but one, that hold the longest request
      or all slots; the pages the fewest, but one, that hold the longest KV. */
  lemma GeometryIs(g: Geometry)
    ensures g.Tiles() * 8 >= Min(g.dev.maxQ, g.slots)
    ensures g.Tiles() == 1 || (g.Tiles() - 1) * 8 < Min(g.dev.maxQ, g.slots)
    ensures g.PagesEstimate() * 64 >= g.dev.maxK
    ensures g.PagesEstimate() == 1 || (g.PagesEstimate() - 1) * 64 < g.dev.maxK
    ensures g.BaseBlocks() == g.Tiles() * g.batch * 2
    ensures g.KvBytes() == 2048 * (g.batch * g.dev.maxK)
    ensures g.RowsTotal() == 16 * Min(g.slots, g.batch * g.dev.maxQ)
  {
    assert g.Tiles() * KV_HEADS * g.batch == g.Tiles() * g.batch * 2;
  }

  /** The estimate of `x` splits: three microseconds for each page of the longest split in each wave, and
      the traffic of the partials if there are any. */
  lemma CostIs(g: Geometry, x: nat, waves: nat, pages: nat)
    requires g.dev.sm >= 1 && x >= 1
    requires g.BaseBlocks() * x <= waves * g.dev.sm && (waves == 0 || (waves - 1) * g.dev.sm < g.BaseBlocks() * x)
    requires g.PagesEstimate() <= pages * x && (pages - 1) * x < g.PagesEstimate()
    ensures x == 1 ==> g.Cost(x) == (waves * pages) as real * 3.0
    ensures x > 1 ==> g.Cost(x) == (waves * pages) as real * 3.0 + (x * g.RowsTotal()) as real * 0.00114
  {
    CeilDivIs(g.BaseBlocks() * x, g.dev.sm, waves);
    CeilDivIs(g.PagesEstimate(), x, pages);
  }

  lemma CeilDivIs(a: nat, b: nat, q: nat)
    requires b >= 1 && a <= q * b && (q == 0 || (q - 1) * b < a)
    ensures CeilDiv(a, b) == q
  {
    CeilDivBounds(a, b);
    var c := CeilDiv(a, b);
    NotMore(q, c + 1, a + b - 1, b);
    if c > q { MulMono(q, c - 1, b); }
  }

  const CANDIDATES: seq<nat> := [1, 2, 3, 4, 6]

  /** The best of increasing candidates that fit: the cheapest up to ties of 1e-9, and strictly cheaper
      than every smaller one. */
  method Cheapest(xs: seq<nat>, limit: nat, cost: nat --> real) returns (best: nat)
    requires |xs| > 0 && xs[0] <= limit
    requires forall i, j :: 0 <= i < j < |xs| ==> xs[i] < xs[j]
    requires forall x: nat :: x in xs ==> cost.requires(x)
    ensures best in xs && best <= limit
    ensures forall i :: 0 <= i < |xs| && xs[i] <= limit ==> cost(best) <= cost(xs[i]) + 0.000000001
    ensures forall i :: 0 <= i < |xs| && xs[i] < best ==> cost(best) < cost(xs[i])
  {
    var at, least, i := 0, cost(xs[0]), 1;
    while i < |xs|
      invariant 0 <= at < i <= |xs| && xs[at] <= limit && least == cost(xs[at])
      invariant forall k :: 0 <= k < i ==> least <= cost(xs[k]) + 0.000000001
      invariant forall k :: 0 <= k < at ==> least < cost(xs[k])
    {
      if xs[i] > limit {
        break;
      }
      var c := cost(xs[i]);
      if c < least - 0.000000001 {
        at, least := i, c;
      }
      i := i + 1;
    }
    best := xs[at];
  }

  /** The one-to-two-wave regime. */
  method CheapestSplits(g: Geometry) returns (splits: nat)
    requires g.dev.sm >= 1
    ensures 1 <= splits <= g.PagesEstimate()
    ensures splits in {1, 2, 3, 4, 6}
    ensures forall s: nat :: s in {1, 2, 3, 4, 6} && s <= g.PagesEstimate() ==>
      g.Cost(splits) <= g.Cost(s) + 0.000000001
    ensures forall s: nat :: s in {1, 2, 3, 4, 6} && s < splits ==> g.Cost(splits) < g.Cost(s)
  {
    assert CANDIDATES[0] == 1 && CANDIDATES[1] == 2 && CANDIDATES[2] == 3 && CANDIDATES[3] == 4 && CANDIDATES[4] == 6;
    splits := Cheapest(CANDIDATES, g.PagesEstimate(), x requires x >= 1 => g.Cost(x));
  }

  /** About two waves of blocks, or one for batches of eight and more. */
  function FillTarget(blocks: nat, sm: nat, batch: nat): (fill: int)
    requires blocks >= 1
  {
    if batch <= 7 then CeilDiv(2 * sm, blocks) else Max(1, sm / blocks)
  }

  lemma FillBounds(blocks: nat, sm: nat, batch: nat)
    requires blocks >= 1 && blocks * 2 <= sm
    ensures
      var fill := FillTarget(blocks, sm, batch);
      fill >= 1 && (fill - 1) * blocks < 2 * sm && (batch >= 8 ==> fill * blocks <= sm)
  {
    if batch <= 7 {
      CeilDivPositive(2 * sm, blocks);
      CeilDivBounds(2 * sm, blocks);
    } else {
      DivMul(sm, blocks);
    }
  }

  lemma DivMul(n: nat, d: nat)
    requires d >= 1
    ensures n / d * d <= n < n / d * d + d
  {
    assert n == d * (n / d) + n % d;
  }

  /** At least 3 pages a split for batches up to four, 16 for batches of eight and more. */
  function PageTarget(pages: nat, batch: nat): (most: nat)
    requires pages >= 1
    ensures 1 <= most <= pages
    ensures batch <= 4 && pages >= 3 ==> most * 3 <= pages
    ensures batch >= 8 && pages >= 16 ==> most * 16 <= pages
  {
    if batch <= 4 then Max(1, pages / 3) else if batch <= 7 then pages else Max(1, pages / 16)
  }

  /** The sub-wave regime: a target number of blocks, and a floor on the pages of a split. */
  method FillSplits(blocks: nat, sm: nat, pages: nat, batch: nat) returns (splits: nat)
    requires 1 <= blocks && blocks * 2 <= sm && pages >= 1
    ensures 1 <= splits <= pages
    ensures batch <= 4 ==> splits == 1 || 3 * splits <= pages
    ensures batch >= 8 ==> splits * blocks <= sm && (splits == 1 || 16 * splits <= pages)
    ensures (splits - 1) * blocks < 2 * sm
    // one more split would exceed the pages or break a bound
    ensures batch <= 4 ==> splits == pages || splits * blocks >= 2 * sm || 3 * (splits + 1) > pages
    ensures 5 <= batch <= 7 ==> splits == pages || splits * blocks >= 2 * sm
    ensures batch >= 8 ==> splits == pages || (splits + 1) * blocks > sm || 16 * (splits + 1) > pages
  {
    FillBounds(blocks, sm, batch);
    var fill: nat := FillTarget(blocks, sm, batch);
    splits := Min(pages, Min(fill, PageTarget(pages, batch)));
    MulMono(splits, fill, blocks);
    MulMono(splits - 1, fill - 1, blocks);
    FillIsMost(splits + 1, blocks, sm, batch);
  }

  lemma FillIsMost(s: nat, blocks: nat, sm: nat, batch: nat)
    requires 1 <= s && 1 <= blocks && blocks * 2 <= sm
    ensures batch <= 7 && (s - 1) * blocks < 2 * sm ==> s <= FillTarget(blocks, sm, batch)
    ensures batch >= 8 && (s == 1 || s * blocks <= sm) ==> s <= FillTarget(blocks, sm, batch)
  {
    FillBounds(blocks, sm, batch);
    if batch <= 7 {
      CeilDivBounds(2 * sm, blocks);
      NotMore(s - 1, CeilDiv(2 * sm, blocks), 2 * sm - 1, blocks);
    } else {
      DivMul(sm, blocks);
      NotMore(s, sm / blocks + 1, sm, blocks);
    }
  }

  lemma NotMore(a: nat, b: int, n: nat, k: nat)
    requires a * k <= n ==> n < b * k
    ensures a * k <= n ==> a < b
  {
    if b >= 0 { if b <= a { MulMono(b, a, k); } } else { MulMono(0, -b, k); }
  }

  /** The three regimes of the split choice. Grids of two waves or more, and caches far beyond the L2,
      are not split. Grids between half a wave and two take the cheapest of a few candidates, the
      smallest of equal ones. Grids of at most half a wave are filled to about two waves, or one for
      batches of eight and more, leaving small and large batches at least 3 and 16 pages a split, with
      as many splits as that allows: one more would exceed the pages or break a bound. */
  ghost predicate WellSplit(g: Geometry, splits: nat)
    requires g.dev.sm >= 1
  {
    var blocks, sm, pages := g.BaseBlocks(), g.dev.sm, g.PagesEstimate();
    && 1 <= splits <= pages
    && (blocks >= 2 * sm || g.KvBytes() >= 256_000_000 ==> splits == 1)
    && (blocks < 2 * sm && g.KvBytes() < 256_000_000 && blocks * 2 > sm ==>
          && splits in {1, 2, 3, 4, 6}
          && (forall s: nat :: s in {1, 2, 3, 4, 6} && s <= pages ==> g.Cost(splits) <= g.Cost(s) + 0.000000001)
          && forall s: nat :: s in {1, 2, 3, 4, 6} && s < splits ==> g.Cost(splits) < g.Cost(s))
    && (blocks * 2 <= sm && g.KvBytes() < 256_000_000 ==>
          && (splits - 1) * blocks < 2 * sm
          && (g.batch >= 8 ==> splits * blocks <= sm && (splits == 1 || 16 * splits <= pages))
          && (g.batch <= 4 ==> splits == 1 || 3 * splits <= pages)
          && (|| splits == pages
              || (g.batch <= 7 && splits * blocks >= 2 * sm)
              || (g.batch <= 4 && 3 * (splits + 1) > pages)
              || (g.batch >= 8 && ((splits + 1) * blocks > sm || 16 * (splits + 1) > pages))))
  }

  method ChooseSplits(g: Geometry) returns (splits: nat)
    requires g.dev.sm >= 1 && g.batch >= 1
    ensures WellSplit(g, splits)
  {
    var blocks, sm, pages := g.BaseBlocks(), g.dev.sm, g.PagesEstimate();
    if blocks >= 2 * sm || g.KvBytes() >= 256_000_000 {
      splits := 1;
    } else if blocks * 2 > sm {
      splits := CheapestSplits(g);
    } else {
      BlocksPositive(g);
      splits := FillSplits(blocks, sm, pages, g.batch);
    }
  }

  lemma BlocksPositive(g: Geometry)
    requires g.batch >= 1
    ensures g.BaseBlocks() >= 1
  {
    MulMono(1, g.Tiles() * KV_HEADS, g.batch);
  }

  // ---- What the plan guarantees -----------------------------------------------------------

  function RowsBound(g: Geometry, splits: nat): nat {
    if splits > 1 then Min(g.slots, g.batch * g.dev.maxQ) else g.slots
  }

  lemma {:induction false} ActiveAtMost(x: Batch, maxQ: nat, n: nat)
    requires x.Valid() && n <= x.Requests()
    requires forall b :: 0 <= b < x.Requests() ==> x.QLen(b) <= maxQ
    ensures x.cuq[n] <= n * maxQ
  {
    if n > 0 {
      ActiveAtMost(x, maxQ, n - 1);
      assert x.QLen(n - 1) <= maxQ;
      assert n * maxQ == (n - 1) * maxQ + maxQ;
    }
  }

  /** If no request is longer than the model's maximum, the tiles cover every query position and the
      partials' row bound covers every active slot. */
  lemma PlanCovers(x: Batch, dev: Device, splits: nat)
    requires x.Valid() && forall b :: 0 <= b < x.Requests() ==> x.QLen(b) <= dev.maxQ
    ensures
      var g := Geometry(x.slots, x.Requests(), dev);
      && (forall b :: 0 <= b < x.Requests() ==> x.QLen(b) <= g.Tiles() * POSITIONS)
      && x.Active() <= RowsBound(g, splits) <= x.slots
      && (splits > 1 ==> RowsBound(g, splits) <= x.Requests() * dev.maxQ)
  {
    ActiveAtMost(x, dev.maxQ, x.Requests());
    forall b | 0 <= b < x.Requests() ensures x.QLen(b) <= x.slots {
      assert x.cuq[b + 1] <= x.cuq[x.Requests()];
    }
  }

  // ---- The pooled partial buffer ----------------------------------------------------------

  /** The never-freed, grow-only pool of float buffers. */
  class Pool {
    var buffers: seq<array<Ext>>

    constructor ()
      ensures buffers == []
    {
      buffers := [];
    }

    /** The first buffer that is large enough, or else a new one of exactly the needed size; no buffer
        is ever dropped or replaced. */
    method Acquire(need: nat) returns (buf: array<Ext>)
      modifies this
      ensures (exists k :: 0 <= k < |old(buffers)| && old(buffers)[k].Length >= need) <==> buffers == old(buffers)
      ensures buffers == old(buffers) ==>
        exists i :: 0 <= i < |buffers| && buf == buffers[i] && buf.Length >= need
                    && forall k :: 0 <= k < i ==> buffers[k].Length < need
      ensures buffers != old(buffers) ==>
        buffers == old(buffers) + [buf] && fresh(buf) && buf.Length == need
    {
      var i := 0;
      while i < |buffers|
        invariant i <= |buffers|
        invariant forall k :: 0 <= k < i ==> buffers[k].Length < need
      {
        if buffers[i].Length >= need {
          return buffers[i];
        }
        i := i + 1;
      }
      buf := new Ext[need];
      buffers := buffers + [buf];
    }
  }

  // ---- Model.forward ----------------------------------------------------------------------

  datatype Plan = Plan(splits: nat, rowsBound: nat, tiles: nat)

  /** The operator's contract towards the model: no request longer than the declared maximum, and no
      non-empty request with more queries than KV columns. */
  ghost predicate Admissible(x: Batch, dev: Device) {
    && x.Valid()
    && (forall b :: 0 <= b < x.Requests() ==> x.QLen(b) <= dev.maxQ)
    && (forall b :: 0 <= b < x.Requests() && x.QLen(b) > 0 ==> x.QLen(b) <= x.seqk[b])
  }

  lemma FinalIsReference(c: Launch, log2e: real, scale: real, before: seq<Vec>, after: seq<Vec>)
    requires c.Valid() && c.qscl == scale * log2e && |before| == |after| == c.x.slots * HEADS
    requires forall b :: 0 <= b < c.x.Requests() && c.x.QLen(b) > 0 ==> c.x.QLen(b) <= c.x.seqk[b]
    requires forall g :: 0 <= g < |after| ==> after[g] == Final(c, g, before[g])
    ensures forall g :: 0 <= g < |after| ==> RefOut(c.x, c.e, log2e, scale, g) == Num(after[g])
  {
    forall g | 0 <= g < |after| ensures RefOut(c.x, c.e, log2e, scale, g) == Num(after[g]) {
      ContractForward(c, log2e, scale, g, before[g]);
    }
  }

  class Model {
    const dev: Device
    const scale: real
    var plans: map<(nat, nat), Plan>       // by (slots, batch)
    const pool: Pool

    ghost predicate Valid()
      reads this
    {
      && dev.sm >= 1
      && forall slots, batch :: (slots, batch) in plans ==>
           var plan := plans[(slots, batch)];
           var g := Geometry(slots, batch, dev);
           && plan.splits >= 1 && plan.rowsBound == RowsBound(g, plan.splits) && plan.tiles == g.Tiles()
           && WellSplit(g, plan.splits)
    }

    constructor (dev: Device, scale: real)
      requires dev.sm >= 1
      ensures Valid() && fresh(pool) && this.dev == dev && this.scale == scale
    {
      this.dev, this.scale, plans := dev, scale, map[];
      pool := new Pool();
    }

    /** The plan of a geometry, computed once. */
    method PlanFor(slots: nat, batch: nat) returns (plan: Plan)
      requires Valid() && batch >= 1
      modifies this
      ensures Valid() && (slots, batch) in plans && plan == plans[(slots, batch)]
      ensures (slots, batch) in old(plans) ==> plans == old(plans)
      ensures forall key :: key in old(plans) ==> key in plans && plans[key] == old(plans[key])
    {
      if (slots, batch) !in plans {
        var g := Geometry(slots, batch, dev);
        var splits := ChooseSplits(g);
        plans := plans[(slots, batch) := Plan(splits, RowsBound(g, splits), g.Tiles())];
      }
      plan := plans[(slots, batch)];
    }

    /** Room for a plan's partials, from the pool; nothing is taken if KV is not split. */
    method TakePartials(plan: Plan) returns (ps: Partials)
      modifies pool
      ensures ps.Fits() && ps.n == if plan.splits > 1 then plan.splits * plan.rowsBound * HEADS else 0
      ensures fresh(ps.buf) || ps.buf in old(pool.buffers)
      ensures old(pool.buffers) <= pool.buffers
      ensures plan.splits > 1 ==> ps.buf in pool.buffers
    {
      if plan.splits > 1 {
        var n := plan.splits * plan.rowsBound * HEADS;
        var buf := pool.Acquire(Need(n));
        ps := Partials(buf, n);
      } else {
        var none := new Ext[0];
        ps := Partials(none, 0);
      }
    }

    /** The whole operator: for every batch within the contract the output is the reference's, at
        every slot and head, whatever the fresh buffers held. `e` is the exponential to base two. */
    method Forward(x: Batch, e: real -> real, log2e: real) returns (out: array<Vec>)
      requires Valid() && Admissible(x, dev) && IsExp2(e) && log2e > 0.0 && scale > 0.0
      modifies this, pool, set i | 0 <= i < |pool.buffers| :: pool.buffers[i]
      ensures Valid() && fresh(out) && out.Length == x.slots * HEADS
      ensures forall g :: 0 <= g < out.Length ==> RefOut(x, e, log2e, scale, g) == Num(out[g])
    {
      var plan := PlanFor(x.slots, x.Requests());
      PlanCovers(x, dev, plan.splits);
      var c := Launch(x, e, scale * log2e, plan.splits, plan.rowsBound);
      out := new Vec[x.slots * HEADS];
      var ps := TakePartials(plan);
      ghost var before := out[..];
      FlashAttention.Forward(c, plan.tiles, out, ps);
      FinalIsReference(c, log2e, scale, before, out[..]);
    }
  }
}
