/** The 32 KB shared-memory tile of 64 rows by 32 chunks of 16 bytes: where each chunk lives, which
    thread copies it, and which lane owns each accumulator element. */
module Swizzle {

  const ROWS: bv16 := 64
  const CHUNKS: bv16 := 32
  const THREADS: bv16 := 128
  const TILE_BYTES: bv16 := 0x8000

  /** Byte offset of chunk `c` of row `r`. */
  function SwzOff(r: bv16, c: bv16): bv16 { r * 512 + (((c & !7) | ((c ^ r) & 7)) << 4) }

  function RowOf(off: bv16): bv16 { off >> 9 }

  function ChunkOf(off: bv16): bv16 { ((off >> 4) & 24) | (((off >> 4) ^ (off >> 9)) & 7) }

  /** Chunks go to distinct aligned places of the tile, and the place tells the chunk. */
  lemma SwizzleRoundTrip(r: bv16, c: bv16)
    requires r < ROWS && c < CHUNKS
    ensures SwzOff(r, c) < TILE_BYTES && SwzOff(r, c) & 15 == 0
    ensures RowOf(SwzOff(r, c)) == r && ChunkOf(SwzOff(r, c)) == c
  {
  }

  /** Every aligned place of the tile holds a chunk: the swizzle is onto. */
  lemma SwizzleOnto(off: bv16)
    requires off < TILE_BYTES && off & 15 == 0
    ensures RowOf(off) < ROWS && ChunkOf(off) < CHUNKS && SwzOff(RowOf(off), ChunkOf(off)) == off
  {
  }

  lemma SwizzleInjective(r: bv16, c: bv16, r': bv16, c': bv16)
    requires r < ROWS && c < CHUNKS && r' < ROWS && c' < CHUNKS
    requires SwzOff(r, c) == SwzOff(r', c')
    ensures r == r' && c == c'
  {
    SwizzleRoundTrip(r, c);
    SwizzleRoundTrip(r', c');
  }

  /** Eight aligned consecutive rows at one chunk, or eight aligned consecutive chunks of one row, lie
      in eight different 16-byte columns of the 128-byte bank line. */
  lemma BankConflictFree(r: bv16, c: bv16, r': bv16, c': bv16)
    requires r < ROWS && c < CHUNKS && r' < ROWS && c' < CHUNKS
    requires (c == c' && r >> 3 == r' >> 3 && r != r') || (r == r' && c >> 3 == c' >> 3 && c != c')
    ensures SwzOff(r, c) & 127 != SwzOff(r', c') & 127
  {
  }

  /** Thread `tid` copies, in its pass `p`, this row and chunk. */
  function CopyRow(tid: bv16, p: bv16): bv16 { (p << 2) | (tid >> 5) }

  function CopyChunk(tid: bv16): bv16 { tid & 31 }

  /** Each chunk of the tile is copied by exactly one thread in exactly one pass. */
  lemma OneCopyPerChunk(r: bv16, c: bv16, tid: bv16, p: bv16)
    requires r < ROWS && c < CHUNKS && tid < THREADS && p < 16
    ensures CopyRow(tid, p) < ROWS && CopyChunk(tid) < CHUNKS
    ensures CopyRow(tid, p) == r && CopyChunk(tid) == c <==> p == (r >> 2) && tid == (((r & 3) << 5) | c)
    ensures (((r & 3) << 5) | c) < THREADS && (r >> 2) < 16
  {
  }

  /** The folded row of a lane's accumulator half, and the head dimension of its j-th pair's element. */
  function LaneRow(tid: bv16, half: bv16): bv16 { ((tid >> 5) << 4) + ((tid & 31) >> 2) + (half << 3) }

  function LaneDim(tid: bv16, j: bv16, e: bv16): bv16 { (j << 3) + ((tid & 3) << 1) + e }

  /** The lane map is a bijection: element (r, d) of the 64 by 256 accumulator is held by this thread,
      half, pair and position and by no other. Whether it is stored is up to the guards. */
  lemma OneWriterPerElement(r: bv16, d: bv16, tid: bv16, half: bv16, j: bv16, e: bv16)
    requires r < ROWS && d < 256 && tid < THREADS && half < 2 && j < 32 && e < 2
    ensures LaneRow(tid, half) < ROWS && LaneDim(tid, j, e) < 256
    ensures LaneRow(tid, half) == r && LaneDim(tid, j, e) == d <==>
      && tid == (((r >> 4) << 5) | ((r & 7) << 2) | ((d >> 1) & 3)) && half == ((r >> 3) & 1)
      && j == (d >> 3) && e == (d & 1)
  {
  }

  /** The four lanes of a quad own the same two rows; each row has exactly one leading lane
      (`lane & 3 == 0`), the one that may store its maximum and denominator. */
  lemma OneRowWriter(r: bv16, tid: bv16, half: bv16)
    requires r < ROWS && tid < THREADS && half < 2 && tid & 3 == 0
    ensures LaneRow(tid, half) == r <==> tid == (((r >> 4) << 5) | ((r & 7) << 2)) && half == ((r >> 3) & 1)
  {
  }

  // ---- Filling a tile ---------------------------------------------------------------------

  /** A byte offset into shared memory. */
  datatype Address = Address(bytes: bv16)

  type Tile<T> = map<Address, T>

  function At(r: bv16, c: bv16): Address { Address(SwzOff(r, c)) }

  /** Chunk (r, c) has been copied after all threads' passes before `p` and, of pass `p`, the threads
      before `tid`. */
  predicate Copied(r: bv16, c: bv16, p: bv16, tid: bv16) {
    (r >> 2) < p || ((r >> 2) == p && (((r & 3) << 5) | c) < tid)
  }

  ghost predicate Filled<T>(tile: Tile<T>, source: (bv16, bv16) -> T, p: bv16, tid: bv16) {
    forall r: bv16, c: bv16 {:trigger Copied(r, c, p, tid)} | r < ROWS && c < CHUNKS && Copied(r, c, p, tid) ::
      At(r, c) in tile && tile[At(r, c)] == source(r, c)
  }

  lemma CopyStep(r: bv16, c: bv16, p: bv16, tid: bv16)
    requires r < ROWS && c < CHUNKS && p < 16 && tid < THREADS
    ensures Copied(r, c, p, tid + 1) <==> Copied(r, c, p, tid) || (CopyRow(tid, p) == r && CopyChunk(tid) == c)
    ensures Copied(r, c, p, THREADS) <==> Copied(r, c, p + 1, 0)
    ensures !Copied(r, c, 0, 0) && Copied(r, c, 16, 0)
  {
  }

  /** One copy of pass `p`: nothing copied earlier is overwritten. */
  lemma FillStep<T>(tile: Tile<T>, source: (bv16, bv16) -> T, p: bv16, tid: bv16, after: Tile<T>)
    requires p < 16 && tid < THREADS && Filled(tile, source, p, tid)
    requires after == tile[At(CopyRow(tid, p), CopyChunk(tid)) := source(CopyRow(tid, p), CopyChunk(tid))]
    ensures Filled(after, source, p, tid + 1)
  {
    var r, c := CopyRow(tid, p), CopyChunk(tid);
    OneCopyPerChunk(0, 0, tid, p);
    forall r': bv16, c': bv16 | r' < ROWS && c' < CHUNKS && Copied(r', c', p, tid + 1)
      ensures At(r', c') in after && after[At(r', c')] == source(r', c')
    {
      CopyStep(r', c', p, tid);
      if SwzOff(r', c') == SwzOff(r, c) { SwizzleInjective(r', c', r, c); }
    }
  }

  lemma NoneFilled<T>(source: (bv16, bv16) -> T)
    ensures Filled(map[], source, 0, 0)
  {
    forall r: bv16, c: bv16 | r < ROWS && c < CHUNKS ensures !Copied(r, c, 0, 0) { CopyStep(r, c, 0, 0); }
  }

  lemma PassDone<T>(tile: Tile<T>, source: (bv16, bv16) -> T, p: bv16)
    requires p < 16 && Filled(tile, source, p, THREADS)
    ensures Filled(tile, source, p + 1, 0)
  {
    forall r: bv16, c: bv16 | r < ROWS && c < CHUNKS && Copied(r, c, p + 1, 0)
      ensures At(r, c) in tile && tile[At(r, c)] == source(r, c)
    {
      CopyStep(r, c, p, 0);
      assert Copied(r, c, p, THREADS);
    }
  }

  lemma AllFilled<T>(tile: Tile<T>, source: (bv16, bv16) -> T)
    requires Filled(tile, source, 16, 0)
    ensures forall r: bv16, c: bv16 | r < ROWS && c < CHUNKS :: At(r, c) in tile && tile[At(r, c)] == source(r, c)
  {
    forall r: bv16, c: bv16 | r < ROWS && c < CHUNKS ensures At(r, c) in tile && tile[At(r, c)] == source(r, c) {
      CopyStep(r, c, 0, 0);
      assert Copied(r, c, 16, 0);
    }
  }

  /** All 128 threads copy 16 chunks each; rows from `valid` on are filled with zeros. The tile then
      reads back, through the swizzle, as the source page with its tail zeroed. */
  method IssueTile<T>(page: (bv16, bv16) -> T, valid: nat, zero: T) returns (tile: Tile<T>)
    ensures forall r: bv16, c: bv16 | r < ROWS && c < CHUNKS ::
      At(r, c) in tile && tile[At(r, c)] == if r as nat < valid then page(r, c) else zero
  {
    ghost var source := (r: bv16, c: bv16) => if r as nat < valid then page(r, c) else zero;
    tile := map[];
    NoneFilled(source);
    var p: bv16 := 0;
    while p < 16
      invariant p <= 16 && Filled(tile, source, p, 0)
      decreases 16 - p
    {
      var tid: bv16 := 0;
      while tid < THREADS
        invariant tid <= THREADS && Filled(tile, source, p, tid)
        decreases THREADS - tid
      {
        var row, c := CopyRow(tid, p), CopyChunk(tid);
        ghost var before := tile;
        tile := tile[At(row, c) := if row as nat < valid then page(row, c) else zero];
        FillStep(before, source, p, tid, tile);
        tid := tid + 1;
      }
      PassDone(tile, source, p);
      p := p + 1;
    }
    AllFilled(tile, source);
  }
}
