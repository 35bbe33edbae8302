/** The one buffer that holds a launch's partials: rows of the accumulator, then maxima, then
    denominators. */
module PartialBuffer {
  import opened Softmax
  import opened PagedBatch

  /** Floats needed for `n` partials: `n` rows of the accumulator, `n` maxima, `n` denominators. */
  function Need(n: nat): nat { n * (HEAD_DIM + 2) }

  function PoAt(p: nat, d: nat): nat { p * HEAD_DIM + d }
  function PmAt(n: nat, p: nat): nat { n * HEAD_DIM + p }
  function PlAt(n: nat, p: nat): nat { n * HEAD_DIM + n + p }

  /** The three regions lie inside the buffer and no two of their elements coincide. */
  lemma RegionsDisjoint(n: nat, p: nat, d: nat, p': nat, d': nat)
    requires p < n && p' < n && d < HEAD_DIM && d' < HEAD_DIM
    ensures PoAt(p, d) < PmAt(n, p') < PlAt(n, p) < Need(n)
    ensures PoAt(p, d) == PoAt(p', d') ==> p == p' && d == d'
    ensures PmAt(n, p) == PmAt(n, p') || PlAt(n, p) == PlAt(n, p') ==> p == p'
  {
  }

  /** Scratch memory that nothing has written may hold -INF where a number is expected. */
  function Number(x: Ext): real { if x.Fin? then x.v else 0.0 }

  /** `n` partials in a buffer of floats that may be larger. */
  datatype Partials = Partials(buf: array<Ext>, n: nat)
  {
    predicate Fits() { Need(n) <= buf.Length }

    /** The accumulator row, maximum and denominator of partial `p`. */
    function Acc(p: nat): Vec
      requires Fits() && p < n
      reads buf
    {
      seq(HEAD_DIM, d requires 0 <= d < HEAD_DIM reads buf => Number(buf[PoAt(p, d)]))
    }

    function Max(p: nat): Ext
      requires Fits() && p < n
      reads buf
    {
      buf[PmAt(n, p)]
    }

    function Den(p: nat): real
      requires Fits() && p < n
      reads buf
    {
      Number(buf[PlAt(n, p)])
    }
  }

  lemma PoDecodes(n: nat, q: nat)
    requires q < n * HEAD_DIM
    ensures q / HEAD_DIM < n && PoAt(q / HEAD_DIM, q % HEAD_DIM) == q
  {
  }

  lemma PoEncodes(p: nat, d: nat)
    requires d < HEAD_DIM
    ensures PoAt(p, d) / HEAD_DIM == p && PoAt(p, d) % HEAD_DIM == d
  {
  }

  /** The chosen rows are stored; no other row, maximum or denominator changes. */
  method StoreRows(ps: Partials, chosen: nat -> bool, row: nat -> Vec)
    requires ps.Fits()
    modifies ps.buf
    ensures forall p :: 0 <= p < ps.n ==> ps.Acc(p) == if chosen(p) then row(p) else old(ps.Acc(p))
    ensures forall p :: 0 <= p < ps.n ==> ps.Max(p) == old(ps.Max(p)) && ps.Den(p) == old(ps.Den(p))
  {
    forall q | 0 <= q < ps.n * HEAD_DIM && chosen(q / HEAD_DIM) {
      ps.buf[q] := Fin(row(q / HEAD_DIM)[q % HEAD_DIM]);
    }
    forall p, d | 0 <= p < ps.n && 0 <= d < HEAD_DIM
      ensures ps.Acc(p)[d] == if chosen(p) then row(p)[d] else old(ps.Acc(p))[d]
    {
      PoEncodes(p, d);
      RegionsDisjoint(ps.n, p, d, p, d);
    }
    forall p | 0 <= p < ps.n ensures ps.Acc(p) == if chosen(p) then row(p) else old(ps.Acc(p)) {
    }
  }

  /** The chosen maxima are stored, and nothing else. */
  method StoreMaxima(ps: Partials, chosen: nat -> bool, max: nat -> Ext)
    requires ps.Fits()
    modifies ps.buf
    ensures forall p :: 0 <= p < ps.n ==> ps.Max(p) == if chosen(p) then max(p) else old(ps.Max(p))
    ensures forall p :: 0 <= p < ps.n ==> ps.Acc(p) == old(ps.Acc(p)) && ps.Den(p) == old(ps.Den(p))
  {
    var base := PmAt(ps.n, 0);
    forall q | base <= q < base + ps.n && chosen(q - base) { ps.buf[q] := max(q - base); }
    assert forall q :: 0 <= q < base ==> ps.buf[q] == old(ps.buf[q]);
    assert forall q :: base + ps.n <= q < ps.buf.Length ==> ps.buf[q] == old(ps.buf[q]);
    forall p | 0 <= p < ps.n
      ensures ps.Max(p) == (if chosen(p) then max(p) else old(ps.Max(p)))
      ensures ps.Acc(p) == old(ps.Acc(p)) && ps.Den(p) == old(ps.Den(p))
    {
      assert PmAt(ps.n, p) == base + p && PlAt(ps.n, p) == base + ps.n + p;
      forall d | 0 <= d < HEAD_DIM ensures ps.Acc(p)[d] == old(ps.Acc(p))[d] {
        RegionsDisjoint(ps.n, p, d, p, d);
      }
    }
  }

  /** The chosen denominators are stored, and nothing else. */
  method StoreDenominators(ps: Partials, chosen: nat -> bool, den: nat -> real)
    requires ps.Fits()
    modifies ps.buf
    ensures forall p :: 0 <= p < ps.n ==> ps.Den(p) == if chosen(p) then den(p) else old(ps.Den(p))
    ensures forall p :: 0 <= p < ps.n ==> ps.Acc(p) == old(ps.Acc(p)) && ps.Max(p) == old(ps.Max(p))
  {
    var base := PlAt(ps.n, 0);
    forall q | base <= q < base + ps.n && chosen(q - base) { ps.buf[q] := Fin(den(q - base)); }
  }

  /** Rows, maxima and denominators of the chosen partials. */
  method StorePartials(ps: Partials, chosen: nat -> bool, row: nat -> Vec, max: nat -> Ext, den: nat -> real)
    requires ps.Fits()
    modifies ps.buf
    ensures forall p :: 0 <= p < ps.n ==>
      if chosen(p) then ps.Acc(p) == row(p) && ps.Max(p) == max(p) && ps.Den(p) == den(p)
      else ps.Acc(p) == old(ps.Acc(p)) && ps.Max(p) == old(ps.Max(p)) && ps.Den(p) == old(ps.Den(p))
  {
    StoreRows(ps, chosen, row);
    StoreMaxima(ps, chosen, max);
    StoreDenominators(ps, chosen, den);
  }
}
