/** The tile copies byte by byte: the threads' copies from the flat cache through the block table, and
    from the flat queries, into the swizzled tile, proved to stage the tiles the loop computes with. */
module TileFill {
  import opened SplitGeometry
  import opened PagedBatch
  import opened FaMainTile
  import Swizzle

  const CHUNK := 8    // elements of two bytes in a 16-byte chunk

  /** Distance between two token rows of a cache, in elements. */
  const ROW_STRIDE := KV_HEADS * HEAD_DIM

  /** Chunk `c` of a row. */
  function RowChunk(v: Vec, c: nat): seq<real>
    requires c < HEAD_DIM / CHUNK
  {
    v[c * CHUNK..c * CHUNK + CHUNK]
  }

  /** The 16 bytes at an element address of the flat cache. */
  function Load(cache: seq<Vec>, address: nat): seq<real>
    requires address / HEAD_DIM < |cache| && address % HEAD_DIM + CHUNK <= HEAD_DIM
  {
    cache[address / HEAD_DIM][address % HEAD_DIM..address % HEAD_DIM + CHUNK]
  }

  /** The address a thread copies from: page, row in the page, kv head, chunk. */
  function Address(page: nat, row: nat, kvg: nat, c: nat): nat {
    page * NTILE * ROW_STRIDE + row * ROW_STRIDE + kvg * HEAD_DIM + c * CHUNK
  }

  lemma AddressDecodes(page: nat, row: nat, kvg: nat, c: nat)
    requires c < HEAD_DIM / CHUNK
    ensures Address(page, row, kvg, c) / HEAD_DIM == (page * NTILE + row) * KV_HEADS + kvg
    ensures Address(page, row, kvg, c) % HEAD_DIM == c * CHUNK
  {
  }

  /** The page that holds a tile, from the block table. */
  function PageOf(k: Task, tile: nat): nat
    requires k.Valid() && tile < k.G().NTiles()
  {
    TilesInside(k.G(), tile);
    k.x.table[k.b][(k.G().Start() + tile * NTILE) / NTILE]
  }

  function RowsHere(k: Task, tile: nat): nat
    requires k.Valid() && tile < k.G().NTiles()
  {
    TilesInside(k.G(), tile);
    Min(NTILE, k.G().CEnd() - (k.G().Start() + tile * NTILE))
  }

  lemma PageLoads(k: Task, cache: seq<Vec>, tile: nat, row: nat, c: nat)
    requires k.Valid() && (cache == k.x.k || cache == k.x.v) && tile < k.G().NTiles()
    requires row < NTILE && c < HEAD_DIM / CHUNK
    ensures
      var address := Address(PageOf(k, tile), row, k.kvg, c);
      address / HEAD_DIM < |cache| && address % HEAD_DIM + CHUNK <= HEAD_DIM
  {
    var p := (k.G().Start() + tile * NTILE) / NTILE;
    TilesInside(k.G(), tile);
    assert k.x.PageExists(k.b, p);
    AddressDecodes(PageOf(k, tile), row, k.kvg, c);
  }

  /** What the copy of one chunk reads: rows past the last valid one read row 0, and store nothing of it. */
  function Loaded(k: Task, cache: seq<Vec>, tile: nat, row: nat, c: nat): seq<real>
    requires k.Valid() && (cache == k.x.k || cache == k.x.v) && tile < k.G().NTiles()
    requires row < NTILE && c < HEAD_DIM / CHUNK
  {
    var clamped := if row < RowsHere(k, tile) then row else 0;
    PageLoads(k, cache, tile, clamped, c);
    Load(cache, Address(PageOf(k, tile), clamped, k.kvg, c))
  }

  lemma RowInPage(n0: nat, row: nat)
    requires n0 % NTILE == 0 && row < NTILE
    ensures (n0 + row) / NTILE == n0 / NTILE && (n0 + row) % NTILE == row
  {
  }

  /** The column a row of a tile holds. */
  function ColumnOf(k: Task, tile: nat, row: nat): nat
    requires k.Valid() && tile < k.G().NTiles()
  {
    k.G().Start() + tile * NTILE + row
  }

  /** The flat address of a valid row is its column's cache row. */
  lemma ValidAddress(k: Task, tile: nat, row: nat, c: nat)
    requires k.Valid() && tile < k.G().NTiles() && row < RowsHere(k, tile) && c < HEAD_DIM / CHUNK
    ensures ColumnOf(k, tile, row) < k.x.seqk[k.b]
    ensures Address(PageOf(k, tile), row, k.kvg, c) / HEAD_DIM == k.x.CacheRow(k.b, ColumnOf(k, tile, row), k.kvg)
    ensures Address(PageOf(k, tile), row, k.kvg, c) % HEAD_DIM == c * CHUNK
  {
    TilesInside(k.G(), tile);
    AddressDecodes(PageOf(k, tile), row, k.kvg, c);
    RowInPage(k.G().Start() + tile * NTILE, row);
  }

  lemma ValidIsLoaded(k: Task, cache: seq<Vec>, tile: nat, row: nat, c: nat)
    requires k.Valid() && (cache == k.x.k || cache == k.x.v) && tile < k.G().NTiles()
    requires row < RowsHere(k, tile) && c < HEAD_DIM / CHUNK
    ensures ColumnOf(k, tile, row) < k.x.seqk[k.b]
    ensures Loaded(k, cache, tile, row, c)
         == RowChunk(cache[k.x.CacheRow(k.b, ColumnOf(k, tile, row), k.kvg)], c)
  {
    ValidAddress(k, tile, row, c);
  }

  lemma TileRowIs(k: Task, cache: seq<Vec>, tile: nat, row: nat)
    requires k.Valid() && (cache == k.x.k || cache == k.x.v) && tile < k.G().NTiles() && row < NTILE
    ensures row >= RowsHere(k, tile) ==> KvTile(k, cache, tile)[row] == Zeros()
    ensures row < RowsHere(k, tile) ==>
      && ColumnOf(k, tile, row) < k.x.seqk[k.b]
      && KvTile(k, cache, tile)[row] == cache[k.x.CacheRow(k.b, ColumnOf(k, tile, row), k.kvg)]
  {
    TilesInside(k.G(), tile);
    assert KvTile(k, cache, tile)[row] == TileRow(k, cache, tile, row);
  }

  lemma LoadedIsTileRow(k: Task, cache: seq<Vec>, tile: nat, row: nat, c: nat)
    requires k.Valid() && (cache == k.x.k || cache == k.x.v) && tile < k.G().NTiles()
    requires row < NTILE && c < HEAD_DIM / CHUNK
    ensures (if row < RowsHere(k, tile) then Loaded(k, cache, tile, row, c) else ZeroChunk())
         == RowChunk(KvTile(k, cache, tile)[row], c)
  {
    TileRowIs(k, cache, tile, row);
    if row < RowsHere(k, tile) {
      ValidIsLoaded(k, cache, tile, row, c);
    } else {
      ZeroRow(c);
    }
  }

  function ZeroChunk(): seq<real> { seq(CHUNK, i => 0.0) }

  lemma ZeroRow(c: nat)
    requires c < HEAD_DIM / CHUNK
    ensures RowChunk(Zeros(), c) == ZeroChunk()
  {
  }

  lemma PlaceInTile(r: bv16, c: bv16)
    requires r < Swizzle.ROWS && c < Swizzle.CHUNKS
    ensures r as nat < NTILE && c as nat < HEAD_DIM / CHUNK
  {
  }

  /** What thread and pass of chunk (r, c) read. */
  function Chunk(k: Task, cache: seq<Vec>, tile: nat, r: bv16, c: bv16): seq<real>
    requires k.Valid() && (cache == k.x.k || cache == k.x.v) && tile < k.G().NTiles()
  {
    if r as nat < NTILE && c as nat < HEAD_DIM / CHUNK then Loaded(k, cache, tile, r as nat, c as nat) else []
  }

  /** What the tile should hold there. */
  ghost predicate IsChunk(k: Task, cache: seq<Vec>, tile: nat, r: bv16, c: bv16, chunk: seq<real>)
    requires k.Valid() && (cache == k.x.k || cache == k.x.v) && tile < k.G().NTiles()
  {
    && r as nat < NTILE && c as nat < HEAD_DIM / CHUNK
    && chunk == RowChunk(KvTile(k, cache, tile)[r as nat], c as nat)
  }

  lemma CopiedIsChunk(k: Task, cache: seq<Vec>, tile: nat, r: bv16, c: bv16)
    requires k.Valid() && (cache == k.x.k || cache == k.x.v) && tile < k.G().NTiles()
    requires r < Swizzle.ROWS && c < Swizzle.CHUNKS
    ensures IsChunk(k, cache, tile, r, c,
                    if r as nat < RowsHere(k, tile) then Chunk(k, cache, tile, r, c) else ZeroChunk())
  {
    PlaceInTile(r, c);
    LoadedIsTileRow(k, cache, tile, r as nat, c as nat);
  }

  /** `issue_kv_tile`: read back through the swizzle, the filled tile is the tile the loop works on. */
  method IssueKvTile(k: Task, cache: seq<Vec>, tile: nat) returns (filled: Swizzle.Tile<seq<real>>)
    requires k.Valid() && (cache == k.x.k || cache == k.x.v) && tile < k.G().NTiles()
    ensures forall r: bv16, c: bv16 | r < Swizzle.ROWS && c < Swizzle.CHUNKS ::
      Swizzle.At(r, c) in filled && IsChunk(k, cache, tile, r, c, filled[Swizzle.At(r, c)])
  {
    var page := (r: bv16, c: bv16) => Chunk(k, cache, tile, r, c);
    var rows := RowsHere(k, tile);
    filled := Swizzle.IssueTile(page, rows, ZeroChunk());
    forall r: bv16, c: bv16 | r < Swizzle.ROWS && c < Swizzle.CHUNKS
      ensures IsChunk(k, cache, tile, r, c, filled[Swizzle.At(r, c)])
    {
      CopiedIsChunk(k, cache, tile, r, c);
      assert page(r, c) == Chunk(k, cache, tile, r, c);
    }
  }

  // ---- The query tile ---------------------------------------------------------------------

  /** The address a thread of the prologue copies from: the slot of the row's position, clamped to the
      request's last one, its head, and the chunk. */
  function QueryAddress(k: Task, row: nat, c: nat): nat
    requires k.Valid() && row < FOLDED
  {
    var i, head := Min(k.i0 + row / 8, k.x.QLen(k.b) - 1), k.kvg * GROUP + row % 8;
    ((k.x.cuq[k.b] + i) * HEADS + head) * HEAD_DIM + c * CHUNK
  }

  /** It is the slot of the output row that folded row `row` computes. */
  lemma QueryLoads(k: Task, row: nat, c: nat)
    requires k.Valid() && row < FOLDED && c < HEAD_DIM / CHUNK
    ensures QueryAddress(k, row, c) / HEAD_DIM == Slot(k.x, k.RowOf(row)) < |k.x.q|
    ensures QueryAddress(k, row, c) % HEAD_DIM == c * CHUNK
  {
    AddressSplits(Slot(k.x, k.RowOf(row)), c);
  }

  lemma AddressSplits(slot: nat, c: nat)
    requires c < HEAD_DIM / CHUNK
    ensures (slot * HEAD_DIM + c * CHUNK) / HEAD_DIM == slot && (slot * HEAD_DIM + c * CHUNK) % HEAD_DIM == c * CHUNK
  {
  }

  function QueryChunk(k: Task, r: bv16, c: bv16): seq<real>
    requires k.Valid()
  {
    if r as nat < FOLDED && c as nat < HEAD_DIM / CHUNK then
      QueryLoads(k, r as nat, c as nat);
      Load(k.x.q, QueryAddress(k, r as nat, c as nat))
    else []
  }

  ghost predicate IsQueryChunk(k: Task, r: bv16, c: bv16, chunk: seq<real>)
    requires k.Valid()
  {
    r as nat < FOLDED && c as nat < HEAD_DIM / CHUNK && chunk == RowChunk(QTile(k)[r as nat], c as nat)
  }

  lemma QueryChunkIs(k: Task, r: bv16, c: bv16)
    requires k.Valid() && r < Swizzle.ROWS && c < Swizzle.CHUNKS
    ensures r as nat < FOLDED && IsQueryChunk(k, r, c, QueryChunk(k, r, c))
  {
    PlaceInTile(r, c);
    QueryLoads(k, r as nat, c as nat);
  }

  /** The prologue's copy of the query tile: read back through the swizzle, it is the folded tile the
      loop multiplies with. No row is zeroed. */
  method IssueQueryTile(k: Task) returns (filled: Swizzle.Tile<seq<real>>)
    requires k.Valid()
    ensures forall r: bv16, c: bv16 | r < Swizzle.ROWS && c < Swizzle.CHUNKS ::
      Swizzle.At(r, c) in filled && IsQueryChunk(k, r, c, filled[Swizzle.At(r, c)])
  {
    var source := (r: bv16, c: bv16) => QueryChunk(k, r, c);
    filled := Swizzle.IssueTile(source, FOLDED, ZeroChunk());
    forall r: bv16, c: bv16 | r < Swizzle.ROWS && c < Swizzle.CHUNKS
      ensures IsQueryChunk(k, r, c, filled[Swizzle.At(r, c)])
    {
      QueryChunkIs(k, r, c);
      assert source(r, c) == QueryChunk(k, r, c);
    }
  }
}
