/** Boundary tags: how the head and prev_foot words describe the chunks of the heap (malloc.c,
    "Chunk representation", and the checks of do_check_any_chunk to traverse_and_check). */
module Chunks {
  import opened Words
  import opened ChunkMemory
  import opened TreeState
  const MIN_CHUNK_SIZE: int := 32
  const TOP_FOOT_SIZE: int := 80

  /** The chunks of the heap: sizes by address, the ones in use, the regions they tile (from first
      chunk to end marker), and the top chunk (0 before initialization). */
  datatype Shape = Shape(C: map<int, int>, U: set<int>, R: map<int, int>, top: int)

  ghost predicate IsEnd(h: Shape, e: int) {
    exists f :: f in h.R && h.R[f] == e
  }

  /** A place and size that a chunk may have.  Top ends where its memory does, and that need not be a multiple
      of 16. */
  predicate SizeOk(h: Shape, p: int, s: int) {
    && (if p == h.top then 8 <= s && s % 8 == 0 else MIN_CHUNK_SIZE <= s && s % 16 == 0)
    && p % 16 == 0 && p + s <= WORD
  }

  /** The head word of p tells its size and whether it is in use; before a free chunk there is
      none that is free. */
  ghost predicate HeadOk(m: Mem, h: Shape, p: int)
    requires p in h.C
  {
    var w := Rd(m, p + 8);
    && SizeOk(h, p, h.C[p])
    && w == Head(h.C[p], Pinuse(w), p in h.U)
    && (p !in h.U ==> Pinuse(w))
  }

  /** The word behind p tells whether p is in use and, if it is free, its size. */
  ghost predicate FootOk(m: Mem, h: Shape, p: int)
    requires p in h.C
  {
    var n := p + h.C[p];
    && (n in h.C || IsEnd(h, n))
    && Pinuse(Rd(m, n + 8)) == (p in h.U)
    && (p !in h.U && p != h.top ==> Rd(m, n) == h.C[p])
  }

  /** If the chunk before p is free, prev_foot leads to it. */
  ghost predicate BackOk(m: Mem, h: Shape, p: int)
    requires p in h.C
  {
    !Pinuse(Rd(m, p + 8)) ==>
      var q := p - Rd(m, p);
      q in h.C && q !in h.U && q != h.top && h.C[q] == Rd(m, p)
  }

  ghost predicate ChunkOk(m: Mem, h: Shape, p: int)
    requires p in h.C
  {
    HeadOk(m, h, p) && FootOk(m, h, p) && BackOk(m, h, p)
  }

  /** The head word of an end marker: the space kept behind top, or a fencepost. */
  function EndHead(h: Shape, e: int): int {
    if h.top in h.C && e == h.top + h.C[h.top] then TOP_FOOT_SIZE else FENCEPOST_HEAD
  }

  ghost predicate RegionOk(m: Mem, h: Shape, f: int)
    requires f in h.R
  {
    var e := h.R[f];
    && f in h.C && Pinuse(Rd(m, f + 8)) && f < e && e % 8 == 0 && e !in h.C
    && Rd(m, e + 8) == EndHead(h, e)
    && (forall p | p in h.C :: p + h.C[p] <= e || e + 16 <= p)
    && (forall g | g in h.R && f < g :: e + 16 <= g)
  }

  /** p lies in the region that starts at f. */
  predicate Inside(h: Shape, p: int, f: int)
    requires p in h.C
  {
    f in h.R && f <= p && p + h.C[p] <= h.R[f]
  }

  /** Top is free and the last chunk of its region. */
  predicate TopOk(h: Shape) {
    h.top != 0 ==> h.top in h.C && h.top !in h.U && h.top + h.C[h.top] !in h.C
  }

  ghost predicate TagsOk(m: Mem, h: Shape) {
    && Apart(h.C)
    && (forall p {:trigger ChunkOk(m, h, p)} | p in h.C :: ChunkOk(m, h, p))
    && (forall f {:trigger RegionOk(m, h, f)} | f in h.R :: RegionOk(m, h, f))
    && (forall p | p in h.C :: exists f :: Inside(h, p, f))
    && TopOk(h)
    && h.U <= h.C.Keys && 0 !in h.C
  }

  // ---------------------------------------------------------------------------------------
  // Replacing a run of chunks

  /** Only the chunks between lo and hi, the words between their heads and the head of hi, and the
      PINUSE bit there, may differ. */
  ghost predicate Local(m: Mem, m': Mem, h: Shape, h': Shape, lo: int, hi: int, f: int) {
    && lo in h.C && lo in h'.C && lo < hi && h'.R == h.R && Inside(h, lo, f) && hi <= h.R[f]
    && (forall p | p in h.C :: p + h.C[p] <= lo || hi <= p || (lo <= p && p + h.C[p] <= hi))
    && (forall p | p in h'.C :: p + h'.C[p] <= lo || hi <= p || (lo <= p && p + h'.C[p] <= hi))
    && (forall p | p in h.C && !(lo <= p < hi) :: p in h'.C && h'.C[p] == h.C[p] && (p in h'.U <==> p in h.U))
    && (forall p | p in h'.C && !(lo <= p < hi) :: p in h.C)
    && (if lo <= h.top < hi then lo <= h'.top < hi else h'.top == h.top)
    && h'.U <= h'.C.Keys
    && (forall a {:trigger Rd(m', a)} | !(lo + 8 <= a < hi + 16) :: Rd(m', a) == Rd(m, a))
    && Pinuse(Rd(m', lo + 8)) == Pinuse(Rd(m, lo + 8))
  }

  /** The new chunks between lo and hi carry correct tags. */
  ghost predicate InnerOk(m': Mem, h': Shape, lo: int, hi: int) {
    forall p | p in h'.C && lo <= p < hi ::
      && p >= HEAP_MIN && HeadOk(m', h', p) && FootOk(m', h', p) && (p != lo ==> BackOk(m', h', p))
      && (forall q | q in h'.C && lo <= q < p :: q + h'.C[q] <= p)
  }

  /** The marker or chunk behind the run is right. */
  ghost predicate BehindOk(m': Mem, h: Shape, h': Shape, hi: int) {
    && (hi in h.C || IsEnd(h, hi))
    && (hi in h.C ==> hi in h'.C && HeadOk(m', h', hi) && BackOk(m', h', hi))
    && (IsEnd(h, hi) ==> Rd(m', hi + 8) == EndHead(h', hi))
  }

  lemma LocalApart(m: Mem, m': Mem, h: Shape, h': Shape, lo: int, hi: int, f: int)
    requires TagsOk(m, h) && Local(m, m', h, h', lo, hi, f) && InnerOk(m', h', lo, hi)
    ensures Apart(h'.C) && 0 !in h'.C
  {
    hide ChunkOk, RegionOk, BackOk, FootOk;
    assert lo >= HEAP_MIN;
    forall p, q | p in h'.C && q in h'.C && p < q ensures p + h'.C[p] <= q {
      if lo <= q < hi {
        if p < lo { assert p in h.C; }
      } else {
        assert q in h.C;
        if !(lo <= p < hi) { assert p in h.C; }
      }
    }
  }

  /** Chunks and markers behind the run start behind its last tag words. */
  lemma Beyond(m: Mem, h: Shape, lo: int, hi: int, f: int, p: int)
    requires TagsOk(m, h) && lo in h.C && Inside(h, lo, f) && hi <= h.R[f] && (hi in h.C || IsEnd(h, hi))
    requires p in h.C && p > hi
    ensures p >= hi + 16
  {
    hide BackOk;
    assert ChunkOk(m, h, p);
    if hi in h.C {
      assert ChunkOk(m, h, hi);
      if hi == h.top {
        var g :| g in h.R && h.R[g] == hi + h.C[hi];
        assert RegionOk(m, h, g);
      }
    } else {
      var g :| g in h.R && h.R[g] == hi;
      assert RegionOk(m, h, g);
    }
  }

  lemma OutsideOk(m: Mem, m': Mem, h: Shape, h': Shape, lo: int, hi: int, f: int, p: int)
    requires TagsOk(m, h) && Local(m, m', h, h', lo, hi, f) && (hi in h.C || IsEnd(h, hi))
    requires p in h.C && !(lo <= p <= hi)
    ensures p in h'.C && ChunkOk(m', h', p)
  {
    hide RegionOk;
    assert ChunkOk(m, h, p);
    assert ChunkOk(m, h, lo);
    if p > hi { Beyond(m, h, lo, hi, f, p); }
    assert Rd(m', p + 8) == Rd(m, p + 8) && Rd(m', p) == Rd(m, p);
    OutsideFoot(m, m', h, h', lo, hi, f, p);
    OutsideBack(m, m', h, h', lo, hi, f, p);
  }

  lemma OutsideFoot(m: Mem, m': Mem, h: Shape, h': Shape, lo: int, hi: int, f: int, p: int)
    requires TagsOk(m, h) && Local(m, m', h, h', lo, hi, f) && (hi in h.C || IsEnd(h, hi))
    requires p in h.C && !(lo <= p <= hi) && p in h'.C && (p > hi ==> p >= hi + 16)
    ensures FootOk(m', h', p)
  {
    hide RegionOk, BackOk, HeadOk;
    assert ChunkOk(m, h, p);
  }

  lemma OutsideBack(m: Mem, m': Mem, h: Shape, h': Shape, lo: int, hi: int, f: int, p: int)
    requires TagsOk(m, h) && Local(m, m', h, h', lo, hi, f) && (hi in h.C || IsEnd(h, hi))
    requires p in h.C && !(lo < p <= hi) && p in h'.C && (p > hi ==> p >= hi + 16)
    ensures BackOk(m', h', p)
  {
    hide RegionOk, FootOk, HeadOk;
    assert ChunkOk(m, h, p);
    assert p != lo ==> Rd(m', p + 8) == Rd(m, p + 8);
    assert Rd(m', p) == Rd(m, p);
  }

  lemma HiFoot(m: Mem, m': Mem, h: Shape, h': Shape, lo: int, hi: int, f: int)
    requires TagsOk(m, h) && Local(m, m', h, h', lo, hi, f) && hi in h.C && hi in h'.C
    ensures FootOk(m', h', hi)
  {
    hide RegionOk, BackOk, Apart;
    assert ChunkOk(m, h, hi);
  }

  /** No chunk and no region gets into the way of a region. */
  lemma RegionApart(m: Mem, m': Mem, h: Shape, h': Shape, lo: int, hi: int, f: int, g: int)
    requires TagsOk(m, h) && Local(m, m', h, h', lo, hi, f) && (hi in h.C || IsEnd(h, hi)) && g in h.R
    ensures var e := h.R[g];
      && (forall p | p in h'.C :: p + h'.C[p] <= e || e + 16 <= p)
      && (forall x | x in h'.R && g < x :: e + 16 <= x)
  {
    hide BackOk, FootOk, Apart;
    EndsApart(m, h, lo, hi, f, g);
    assert RegionOk(m, h, g) && ChunkOk(m, h, lo);
  }

  lemma RegionStarts(m: Mem, m': Mem, h: Shape, h': Shape, lo: int, hi: int, f: int, g: int)
    requires TagsOk(m, h) && Local(m, m', h, h', lo, hi, f) && BehindOk(m', h, h', hi) && g in h.R && Apart(h'.C)
    ensures g in h'.C && Pinuse(Rd(m', g + 8)) && h.R[g] !in h'.C
  {
    hide BackOk, FootOk, HeadOk;
    assert RegionOk(m, h, f) && RegionOk(m, h, g);
    EndsApart(m, h, lo, hi, f, g);
  }

  lemma RegionKept(m: Mem, m': Mem, h: Shape, h': Shape, lo: int, hi: int, f: int, g: int)
    requires TagsOk(m, h) && Local(m, m', h, h', lo, hi, f) && BehindOk(m', h, h', hi) && g in h.R && Apart(h'.C)
    ensures RegionOk(m', h', g)
  {
    hide BackOk, FootOk, HeadOk, ChunkOk, Apart;
    assert RegionOk(m, h, f) && RegionOk(m, h, g);
    var e := h.R[g];
    EndsApart(m, h, lo, hi, f, g);
    RegionApart(m, m', h, h', lo, hi, f, g);
    RegionStarts(m, m', h, h', lo, hi, f, g);
    if e != hi { EndHeadKept(m, m', h, h', lo, hi, f, e); } else { assert IsEnd(h, hi); }
  }

  lemma EndsApart(m: Mem, h: Shape, lo: int, hi: int, f: int, g: int)
    requires TagsOk(m, h) && lo in h.C && Inside(h, lo, f) && hi <= h.R[f] && lo < hi && g in h.R
    requires hi in h.C || IsEnd(h, hi)
    ensures var e := h.R[g]; e == hi || e < lo || hi + 8 <= e
  {
    hide BackOk, FootOk;
    assert RegionOk(m, h, f) && RegionOk(m, h, g);
    if g == f && h.R[f] != hi {
      if hi in h.C {
        assert ChunkOk(m, h, hi);
      } else {
        var k :| k in h.R && h.R[k] == hi;
        OneEnd(m, h, f, k);
      }
    }
  }

  lemma OneEnd(m: Mem, h: Shape, f: int, k: int)
    requires TagsOk(m, h) && f in h.R && k in h.R && f < h.R[k] <= h.R[f]
    ensures k == f
  {
    hide ChunkOk;
    assert RegionOk(m, h, f) && RegionOk(m, h, k);
  }

  lemma EndHeadKept(m: Mem, m': Mem, h: Shape, h': Shape, lo: int, hi: int, f: int, e: int)
    requires Apart(h.C) && Apart(h'.C) && Local(m, m', h, h', lo, hi, f) && (e < lo || hi < e)
      && (h.top != 0 ==> h.top in h.C) && 0 !in h.C
    ensures EndHead(h', e) == EndHead(h, e)
  {
    if lo <= h.top < hi {
    } else {
      if h.top in h'.C { assert h.top in h.C; }
    }
  }

  lemma StillInside(h: Shape, h': Shape, m: Mem, m': Mem, lo: int, hi: int, f: int, p: int)
    requires TagsOk(m, h) && Local(m, m', h, h', lo, hi, f) && p in h'.C
    ensures exists g :: Inside(h', p, g)
  {
    hide ChunkOk, RegionOk, Apart;
    if lo <= p < hi {
      assert Inside(h', p, f);
    } else {
      var g :| Inside(h, p, g);
      assert Inside(h', p, g);
    }
  }

  /** Replacing a run of chunks by correctly tagged chunks keeps all tags correct. */
  lemma LocalTags(m: Mem, m': Mem, h: Shape, h': Shape, lo: int, hi: int, f: int)
    requires TagsOk(m, h) && Local(m, m', h, h', lo, hi, f) && InnerOk(m', h', lo, hi) && BehindOk(m', h, h', hi)
    requires TopOk(h')
    ensures TagsOk(m', h')
  {
    hide HeadOk, FootOk, BackOk, RegionOk, Apart;
    LocalApart(m, m', h, h', lo, hi, f);
    forall p | p in h'.C ensures ChunkOk(m', h', p) && exists g :: Inside(h', p, g) {
      StillInside(h, h', m, m', lo, hi, f, p);
      if p == lo {
        OutsideBack(m, m', h, h', lo, hi, f, p);
      } else if p == hi {
        HiFoot(m, m', h, h', lo, hi, f);
      } else if !(lo <= p < hi) {
        OutsideOk(m, m', h, h', lo, hi, f, p);
      }
    }
    forall g | g in h'.R ensures RegionOk(m', h', g) {
      RegionKept(m, m', h, h', lo, hi, f, g);
    }
  }
}
