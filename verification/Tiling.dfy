/** The chunks of a heap are determined by the ones in use: whatever lies between them is one free chunk
    each.  This is the interval model that freeing refines. */
module Tiling {
  import opened ChunkMemory
  import opened TreeState
  import opened Chunks
  import opened HeapState

  /** The chunks in use and their sizes. */
  function UsedMap(h: Shape): map<int, int> {
    map p | p in h.C && p in h.U :: if p in h.C && p in h.U then h.C[p] else 0
  }

  // ---------------------------------------------------------------------------------------
  // Chunks tile their regions

  lemma NoEndInside(m: Mem, h: Shape, f: int, e: int)
    requires TagsOk(m, h) && f in h.R && IsEnd(h, e) && f < e <= h.R[f]
    ensures e == h.R[f]
  {
    hide ChunkOk, RegionOk, Apart;
    var g :| g in h.R && h.R[g] == e;
    OneEnd(m, h, f, g);
  }

  /** The chunk before p. */
  lemma Predecessor(m: Mem, h: Shape, f: int, p: int) returns (q: int)
    requires TagsOk(m, h) && p in h.C && Inside(h, p, f) && f < p
    ensures q in h.C && q + h.C[q] == p && Inside(h, q, f)
  {
    hide ChunkOk, RegionOk, IsEnd, Apart;
    RegionStart(m, h, f);
    q := f;
    while q + h.C[q] != p
      invariant q in h.C && f <= q < p && Inside(h, q, f)
      decreases p - q
    {
      NextStep(m, h, f, q, p);
      q := q + h.C[q];
    }
  }

  lemma RegionStart(m: Mem, h: Shape, f: int)
    requires TagsOk(m, h) && f in h.R
    ensures f in h.C && Inside(h, f, f)
  {
    hide ChunkOk, Apart;
    assert RegionOk(m, h, f);
  }

  lemma NextStep(m: Mem, h: Shape, f: int, q: int, p: int)
    requires TagsOk(m, h) && q in h.C && p in h.C && Inside(h, q, f) && Inside(h, p, f) && q < p && q + h.C[q] != p
    ensures var n := q + h.C[q]; n in h.C && q < n < p && Inside(h, n, f)
  {
    hide RegionOk, BackOk, IsEnd;
    var n := q + h.C[q];
    ChunkFacts(m, h, q);
    ChunkFacts(m, h, p);
    assert n < p;
    if IsEnd(h, n) { NoEndInside(m, h, f, n); }
    assert Apart(h.C);
  }

  // ---------------------------------------------------------------------------------------
  // Two heaps with the same chunks in use

  ghost predicate SameUse(h: Shape, h2: Shape) {
    h.R == h2.R && h.U == h2.U && UsedMap(h) == UsedMap(h2)
  }

  lemma SameSize(h: Shape, h2: Shape, p: int)
    requires SameUse(h, h2) && p in h.C && p in h2.C && p in h.U
    ensures h.C[p] == h2.C[p]
  {
    assert UsedMap(h)[p] == UsedMap(h2)[p];
  }

  /** A free chunk does not end earlier in one heap than in the other. */
  lemma NotShorter(m: Mem, h: Shape, m2: Mem, h2: Shape, p: int)
    requires TagsOk(m, h) && TagsOk(m2, h2) && SameUse(h, h2) && p in h.C && p in h2.C && p !in h.U
    ensures h.C[p] >= h2.C[p]
  {
    hide BackOk, RegionOk, UsedMap;
    var n := p + h.C[p];
    ChunkFacts(m, h, p);
    NextFacts(m, h, p);
    if h.C[p] < h2.C[p] {
      if n in h.C {
      } else {
        EndNotInside(m2, h2, p, n);
      }
    }
  }

  lemma EndNotInside(m: Mem, h: Shape, p: int, e: int)
    requires TagsOk(m, h) && p in h.C && IsEnd(h, e)
    ensures !(p < e < p + h.C[p])
  {
    hide ChunkOk, Apart;
    var g :| g in h.R && h.R[g] == e;
    assert RegionOk(m, h, g);
  }

  /** Every chunk of one heap is a chunk of the other. */
  lemma {:induction false} SameChunks(m: Mem, h: Shape, m2: Mem, h2: Shape, f: int, p: int)
    requires TagsOk(m, h) && TagsOk(m2, h2) && SameUse(h, h2) && p in h.C && Inside(h, p, f)
    ensures p in h2.C && h2.C[p] == h.C[p]
    decreases p - f
  {
    hide TagsOk, IsEnd;
    if p == f {
      RegionStart(m2, h2, f) by { assert f in h2.R by { SameRegions(h, h2); } }
    } else {
      var q := Predecessor(m, h, f, p);
      ChunkSizePositive(m, h, q);
      SameChunks(m, h, m2, h2, f, q);
      Successor(m, h, m2, h2, q);
    }
    if p in h.U {
      SameSize(h, h2, p);
    } else {
      NotShorter(m, h, m2, h2, p);
      NotShorter(m2, h2, m, h, p);
    }
  }

  lemma SameRegions(h: Shape, h2: Shape)
    requires SameUse(h, h2)
    ensures h.R == h2.R && h.U == h2.U
  {
  }

  lemma ChunkSizePositive(m: Mem, h: Shape, q: int)
    requires TagsOk(m, h) && q in h.C
    ensures h.C[q] > 0
  {
    ChunkFacts(m, h, q);
  }

  lemma Successor(m: Mem, h: Shape, m2: Mem, h2: Shape, q: int)
    requires TagsOk(m, h) && TagsOk(m2, h2) && SameUse(h, h2) && q in h.C && q in h2.C && h2.C[q] == h.C[q]
    requires q + h.C[q] in h.C
    ensures q + h.C[q] in h2.C
  {
    hide UsedMap, RegionOk, BackOk, Apart;
    var n := q + h.C[q];
    ChunkFacts(m2, h2, q);
    if n !in h2.C {
      assert IsEnd(h, n);
      EndNoChunk(m, h, n);
    }
  }

  lemma EndNoChunk(m: Mem, h: Shape, e: int)
    requires TagsOk(m, h) && IsEnd(h, e)
    ensures e !in h.C
  {
    hide ChunkOk, Apart;
    var g :| g in h.R && h.R[g] == e;
    assert RegionOk(m, h, g);
  }

  lemma SameMap(m: Mem, h: Shape, m2: Mem, h2: Shape)
    requires TagsOk(m, h) && TagsOk(m2, h2) && SameUse(h, h2)
    ensures h.C.Keys <= h2.C.Keys && forall p | p in h.C :: h2.C[p] == h.C[p]
  {
    hide ChunkOk, RegionOk, Apart, SameUse;
    forall p | p in h.C ensures p in h2.C && h2.C[p] == h.C[p] {
      var f :| Inside(h, p, f);
      SameChunks(m, h, m2, h2, f, p);
    }
  }

  lemma SameTop(m: Mem, h: Shape, m2: Mem, h2: Shape)
    requires TagsOk(m, h) && TagsOk(m2, h2) && SameUse(h, h2) && h.C == h2.C && h.top != 0
    ensures h2.top == h.top
  {
    hide ChunkOk, RegionOk, Apart, UsedMap;
    NextFacts(m2, h2, h.top);
  }

  lemma EqualIfSame(a: map<int, int>, c: map<int, int>)
    requires forall q :: q in a <==> q in c
    requires forall q | q in a :: q in c && a[q] == c[q]
    ensures a == c
  {
    assert forall q :: q in a.Keys <==> q in c.Keys;
    assert a.Keys == c.Keys;
    assert forall q | q in a :: a[q] == c[q];
  }

  /** Where the regions and the chunks in use are the same, all chunks are. */
  lemma UsedDetermineAll(m: Mem, h: Shape, m2: Mem, h2: Shape)
    requires TagsOk(m, h) && TagsOk(m2, h2) && h.R == h2.R && h.U == h2.U && UsedMap(h) == UsedMap(h2)
    ensures h == h2
  {
    hide TagsOk, UsedMap;
    SameMap(m, h, m2, h2);
    SameMap(m2, h2, m, h);
    EqualIfSame(h.C, h2.C);
    if h.top != 0 { SameTop(m, h, m2, h2); }
    if h2.top != 0 { SameTop(m2, h2, m, h); }
  }
}
