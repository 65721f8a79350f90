/** How the regions of the heap come, grow, shrink and go (malloc.c, init_top, prepend_alloc, add_segment,
    sys_trim, release_unused_segments): what their tag words must say for the heap to stay in order. */
module Regions {
  import opened Words
  import opened ChunkMemory
  import opened TreeState
  import opened AllBins
  import opened Chunks
  import opened HeapState
  import opened HeapInvariant
  import opened TagWrites
  import SmallBins

  /** No chunk and no end marker of h touches the words from lo to hi. */
  ghost predicate Clear(h: Shape, lo: int, hi: int) {
    && (forall p | p in h.C :: p + h.C[p] <= lo || hi <= p)
    && (forall g | g in h.R :: h.R[g] + 16 <= lo || hi <= g)
  }

  // ---------------------------------------------------------------------------------------
  // Chunks that are not involved

  /** p and its neighbours are the same in both heaps. */
  ghost predicate Alike(m: Mem, m': Mem, h: Shape, h': Shape, p: int)
    requires p in h.C
  {
    var n := p + h.C[p];
    && p in h'.C && h'.C[p] == h.C[p] && (p in h'.U <==> p in h.U) && (p == h'.top <==> p == h.top)
    && Rd(m', p) == Rd(m, p) && Rd(m', p + 8) == Rd(m, p + 8) && Pinuse(Rd(m', n + 8)) == Pinuse(Rd(m, n + 8))
    && (p !in h.U && p != h.top ==> Rd(m', n) == Rd(m, n))
    && (n in h'.C || IsEnd(h', n))
  }

  lemma ChunkKept(m: Mem, m': Mem, h: Shape, h': Shape, p: int)
    requires TagsOk(m, h) && p in h.C && Alike(m, m', h, h', p)
    requires !Pinuse(Rd(m, p + 8)) ==>
      var q := p - Rd(m, p); q in h'.C && q in h.C && h'.C[q] == h.C[q] && q !in h'.U && q != h'.top
    ensures ChunkOk(m', h', p)
  {
    hide RegionOk, Apart, IsEnd;
    assert ChunkOk(m, h, p);
  }

  /** The conditions of TagsOk, chunk by chunk and region by region. */
  lemma TagsFrom(m: Mem, h: Shape)
    requires Apart(h.C) && TopOk(h) && h.U <= h.C.Keys && 0 !in h.C
    requires forall p | p in h.C :: ChunkOk(m, h, p) && exists f :: Inside(h, p, f)
    requires forall f | f in h.R :: RegionOk(m, h, f)
    ensures TagsOk(m, h)
  {
  }

  lemma LowerLeast(m: Mem, b: BinState, h: Shape, k: Marks, leastAddr: int, least': int, X: set<int>)
    requires HeapOk(m, b, h, k, leastAddr, X) && least' <= leastAddr
    ensures HeapOk(m, b, h, k, least', X)
  {
    hide TagsOk, SmallBins.SmallsOk, TreesOk, Spare, MarksOk, Binned;
  }

  // ---------------------------------------------------------------------------------------
  // Writes outside all regions

  lemma ElsewhereTags(m: Mem, m': Mem, h: Shape)
    requires TagsOk(m, h) && forall a {:trigger Rd(m', a)} | a >= HEAP_MIN && !Foreign(h, a) :: Rd(m', a) == Rd(m, a)
    ensures TagsOk(m', h)
  {
    hide HeadOk, FootOk, BackOk, RegionOk, Apart, Foreign;
    forall p | p in h.C ensures ChunkOk(m', h, p) {
      ChunkFacts(m, h, p);
      ElsewhereChunk(m, m', h, p);
    }
    forall f | f in h.R ensures RegionOk(m', h, f) {
      ElsewhereRegion(m, m', h, f);
    }
  }

  lemma ElsewhereWords(m: Mem, m': Mem, h: Shape, p: int)
    requires TagsOk(m, h) && forall a {:trigger Rd(m', a)} | a >= HEAP_MIN && !Foreign(h, a) :: Rd(m', a) == Rd(m, a)
    requires p in h.C || IsEnd(h, p)
    ensures forall a | p <= a < p + 16 :: Rd(m', a) == Rd(m, a)
    ensures p in h.C ==> forall a | p <= a < p + h.C[p] :: Rd(m', a) == Rd(m, a)
  {
    hide ChunkOk, Apart;
    if p in h.C {
      var f :| Inside(h, p, f);
      assert RegionOk(m, h, f);
      Room(m, h, p);
      forall a | p <= a < p + h.C[p] || p <= a < p + 16 ensures Rd(m', a) == Rd(m, a) {
        assert !Foreign(h, a);
      }
    } else {
      var f :| f in h.R && h.R[f] == p;
      assert RegionOk(m, h, f);
      Room(m, h, f);
      forall a | p <= a < p + 16 ensures Rd(m', a) == Rd(m, a) {
        assert !Foreign(h, a);
      }
    }
  }

  lemma ElsewhereChunk(m: Mem, m': Mem, h: Shape, p: int)
    requires TagsOk(m, h) && forall a {:trigger Rd(m', a)} | a >= HEAP_MIN && !Foreign(h, a) :: Rd(m', a) == Rd(m, a)
    requires p in h.C
    ensures ChunkOk(m', h, p)
  {
    hide RegionOk, Apart, Foreign, IsEnd;
    ChunkFacts(m, h, p);
    ElsewhereWords(m, m', h, p);
    ElsewhereWords(m, m', h, p + h.C[p]);
  }

  lemma ElsewhereRegion(m: Mem, m': Mem, h: Shape, f: int)
    requires TagsOk(m, h) && forall a {:trigger Rd(m', a)} | a >= HEAP_MIN && !Foreign(h, a) :: Rd(m', a) == Rd(m, a)
    requires f in h.R
    ensures RegionOk(m', h, f)
  {
    hide ChunkOk, Apart, Foreign;
    assert RegionOk(m, h, f);
    ElsewhereWords(m, m', h, f);
    assert IsEnd(h, h.R[f]);
    ElsewhereWords(m, m', h, h.R[f]);
  }

  /** Memory outside the regions may be written freely. */
  lemma ElsewhereHeap(m: Mem, m': Mem, b: BinState, h: Shape, k: Marks, leastAddr: int, X: set<int>)
    requires HeapOk(m, b, h, k, leastAddr, X)
    requires forall a {:trigger Rd(m', a)} | a < HEAP_MIN || !Foreign(h, a) :: Rd(m', a) == Rd(m, a)
    ensures HeapOk(m', b, h, k, leastAddr, X)
  {
    hide TagsOk, BinsOk, Binned, Foreign, MarksOk, Spare, Apart;
    ElsewhereTags(m, m', h);
    BinnedPlaces(m, b, h.C, leastAddr);
    forall p | p in Binned(b) ensures SameChunk(m, m', h.C, h.C, p) {
      ElsewhereWords(m, m', h, p);
    }
    BinsKeep(m, m', b, h.C, h.C, leastAddr);
  }

  // ---------------------------------------------------------------------------------------
  // A new region that is all top

  function WithRegion(h: Shape, f: int, e: int): Shape {
    h.(C := h.C[f := e - f], R := h.R[f := e], top := f)
  }

  lemma NewTopChunk(m: Mem, h: Shape, f: int, e: int)
    requires TagsOk(m, h) && Clear(h, f, e + 16) && HEAP_MIN <= f && f + 16 <= e <= WORD && f % 16 == 0 && e % 8 == 0
    requires Rd(m, f + 8) == Head(e - f, true, false) && Rd(m, e + 8) == TOP_FOOT_SIZE
    ensures ChunkOk(m, WithRegion(h, f, e), f)
  {
    hide TagsOk, Head, Clear;
    var h' := WithRegion(h, f, e);
    assert h'.R[f] == e;
    assert IsEnd(h', e);
    NotUsed(m, h, f, e);
    EightsApart(f, e);
    HeadWord(e - f, true, false);
  }

  lemma RegionFirst(m: Mem, h: Shape, f: int)
    requires TagsOk(m, h) && f in h.R
    ensures f in h.C && f >= HEAP_MIN && f < h.R[f] && h.R[f] !in h.C && Pinuse(Rd(m, f + 8))
    ensures Rd(m, h.R[f] + 8) == EndHead(h, h.R[f])
    ensures forall p | p in h.C :: p + h.C[p] <= h.R[f] || h.R[f] + 16 <= p
    ensures forall g | g in h.R && f < g :: h.R[f] + 16 <= g
  {
    hide ChunkOk;
    assert RegionOk(m, h, f);
  }

  lemma EndOfEights(m: Mem, h: Shape, f: int)
    requires TagsOk(m, h) && f in h.R
    ensures h.R[f] % 8 == 0
  {
    hide ChunkOk, Apart;
    assert RegionOk(m, h, f);
  }

  lemma NotUsed(m: Mem, h: Shape, f: int, e: int)
    requires TagsOk(m, h) && Clear(h, f, e + 16) && f < e
    ensures f !in h.C && f !in h.U && f !in h.R
  {
    hide ChunkOk, Apart;
    if f in h.C { ChunkFacts(m, h, f); }
    if f in h.R { RegionFirst(m, h, f); }
  }

  lemma AddRegionTags(m: Mem, h: Shape, f: int, e: int)
    requires TagsOk(m, h) && h.top == 0
    requires Clear(h, f, e + 16) && HEAP_MIN <= f && f + 16 <= e <= WORD && f % 16 == 0 && e % 8 == 0
    requires Rd(m, f + 8) == Head(e - f, true, false) && Rd(m, e + 8) == TOP_FOOT_SIZE
    ensures TagsOk(m, WithRegion(h, f, e))
  {
    hide ChunkOk, RegionOk, Apart, TagsOk, Clear, Head, Inside, TopOk;
    var h' := WithRegion(h, f, e);
    NotUsed(m, h, f, e);
    AddedApart(m, h, f, e);
    EightsApart(f, e);
    forall p | p in h'.C ensures ChunkOk(m, h', p) && exists g :: Inside(h', p, g) {
      AddedChunk(m, h, f, e, p);
    }
    forall g | g in h'.R ensures RegionOk(m, h', g) {
      AddedRegion(m, h, f, e, g);
    }
    TagsFrom(m, h');
  }

  lemma EightsApart(f: int, e: int)
    requires f % 16 == 0 && e % 8 == 0
    ensures (e - f) % 8 == 0
  {
  }

  lemma AddedChunk(m: Mem, h: Shape, f: int, e: int, p: int)
    requires TagsOk(m, h) && h.top == 0 && p in WithRegion(h, f, e).C
    requires Clear(h, f, e + 16) && HEAP_MIN <= f && f + 16 <= e <= WORD && f % 16 == 0 && e % 8 == 0
    requires Rd(m, f + 8) == Head(e - f, true, false) && Rd(m, e + 8) == TOP_FOOT_SIZE
    ensures ChunkOk(m, WithRegion(h, f, e), p) && exists g :: Inside(WithRegion(h, f, e), p, g)
  {
    hide ChunkOk, RegionOk, Apart, TagsOk, Clear, Head;
    var h' := WithRegion(h, f, e);
    NotUsed(m, h, f, e);
    if p == f {
      NewTopChunk(m, h, f, e);
      assert Inside(h', f, f);
    } else {
      AddedKeeps(m, h, f, e, p);
      var g := RegionAround(m, h, p);
      assert Inside(h', p, g);
    }
  }

  lemma RegionAround(m: Mem, h: Shape, p: int) returns (f: int)
    requires TagsOk(m, h) && p in h.C
    ensures Inside(h, p, f)
  {
    hide ChunkOk, RegionOk, Apart;
    f :| Inside(h, p, f);
  }

  lemma AddedApart(m: Mem, h: Shape, f: int, e: int)
    requires TagsOk(m, h) && Clear(h, f, e + 16) && HEAP_MIN <= f && f + 16 <= e
    ensures var h' := WithRegion(h, f, e); Apart(h'.C) && TopOk(h') && 0 !in h'.C && h'.U <= h'.C.Keys
  {
    hide ChunkOk, RegionOk;
    NotUsed(m, h, f, e);
    var h' := WithRegion(h, f, e);
    if e in h'.C { ChunkFacts(m, h, e); }
    forall p, q | p in h'.C && q in h'.C && p < q ensures p + h'.C[p] <= q {
      if p == f { ChunkFacts(m, h, q); }
      if q == f { ChunkFacts(m, h, p); }
    }
  }

  lemma AddedKeeps(m: Mem, h: Shape, f: int, e: int, p: int)
    requires TagsOk(m, h) && h.top == 0 && Clear(h, f, e + 16) && f + 16 <= e && p in h.C && p != f
      && f !in h.C && f !in h.U
    requires f !in h.R
    ensures ChunkOk(m, WithRegion(h, f, e), p)
  {
    hide RegionOk, Apart;
    var h' := WithRegion(h, f, e);
    ChunkFacts(m, h, p);
    var n := p + h.C[p];
    if n !in h.C {
      var g :| g in h.R && h.R[g] == n;
      assert h'.R[g] == n;
      assert IsEnd(h', n);
    }
    ChunkKept(m, m, h, h', p);
  }

  lemma AddedRegion(m: Mem, h: Shape, f: int, e: int, g: int)
    requires TagsOk(m, h) && h.top == 0 && Clear(h, f, e + 16) && HEAP_MIN <= f && f + 16 <= e && e % 8 == 0
    requires f !in h.C && f !in h.R
    requires Rd(m, f + 8) == Head(e - f, true, false) && Rd(m, e + 8) == TOP_FOOT_SIZE && (e - f) % 8 == 0
    requires g in WithRegion(h, f, e).R
    ensures RegionOk(m, WithRegion(h, f, e), g)
  {
    hide ChunkOk, Apart, Clear, TagsOk, Head;
    var h' := WithRegion(h, f, e);
    if g == f {
      AddedFirst(m, h, f, e);
    } else {
      OldRegion(m, h, f, e, g);
    }
  }

  lemma AddedFirst(m: Mem, h: Shape, f: int, e: int)
    requires TagsOk(m, h) && h.top == 0 && Clear(h, f, e + 16) && HEAP_MIN <= f && f + 16 <= e && e % 8 == 0
    requires f !in h.C && f !in h.R && Rd(m, f + 8) == Head(e - f, true, false) && Rd(m, e + 8) == TOP_FOOT_SIZE
      && (e - f) % 8 == 0
    ensures RegionOk(m, WithRegion(h, f, e), f)
  {
    hide ChunkOk, Apart;
    var h' := WithRegion(h, f, e);
    if e in h.C { ChunkFacts(m, h, e); }
    forall p | p in h'.C ensures p + h'.C[p] <= e || e + 16 <= p {
    }
    forall x | x in h'.R && f < x ensures e + 16 <= x {
      assert RegionOk(m, h, x);
    }
  }

  lemma OldRegion(m: Mem, h: Shape, f: int, e: int, g: int)
    requires TagsOk(m, h) && h.top == 0 && Clear(h, f, e + 16) && HEAP_MIN <= f && f + 16 <= e && f !in h.C
      && g in h.R && f !in h.R
    ensures RegionOk(m, WithRegion(h, f, e), g)
  {
    hide ChunkOk, Apart;
    var h' := WithRegion(h, f, e);
    assert RegionOk(m, h, g);
    assert EndHead(h', h.R[g]) == EndHead(h, h.R[g]);
  }

  /** A heap without top gets a region that is all top. */
  lemma AddRegionHeap(m: Mem, b: BinState, h: Shape, k: Marks, leastAddr: int, X: set<int>, f: int, e: int)
    requires HeapOk(m, b, h, k, leastAddr, X) && h.top == 0 && leastAddr <= f
    requires Clear(h, f, e + 16) && HEAP_MIN <= f && f + 16 <= e <= WORD && f % 16 == 0 && e % 8 == 0
    requires Rd(m, f + 8) == Head(e - f, true, false) && Rd(m, e + 8) == TOP_FOOT_SIZE
    ensures HeapOk(m, b, WithRegion(h, f, e), k.(top := f, topsize := e - f), leastAddr, X)
  {
    hide TagsOk, BinsOk, Binned, Apart, Head;
    var h' := WithRegion(h, f, e);
    AddRegionTags(m, h, f, e);
    NotUsed(m, h, f, e);
    AddedApart(m, h, f, e);
    BinnedPlaces(m, b, h.C, leastAddr);
    forall p | p in Binned(b) ensures SameChunk(m, m, h.C, h'.C, p) {
    }
    BinsKeep(m, m, b, h.C, h'.C, leastAddr);
    assert f !in Binned(b);
    assert Spare(b, h') == Spare(b, h) + {f};
  }

  // ---------------------------------------------------------------------------------------
  // The end of the region of top moves

  function MovedEnd(h: Shape, f: int, e: int): Shape {
    h.(C := h.C[h.top := e - h.top], R := h.R[f := e])
  }

  /** The region f ends behind top, and its end may move to e. */
  ghost predicate MayMove(h: Shape, f: int, e: int) {
    && h.top in h.C && Inside(h, h.top, f) && h.R[f] == h.top + h.C[h.top]
    && h.top < e <= WORD && e % 8 == 0
    && (forall p | p in h.C && p != h.top :: p + h.C[p] <= h.top || e + 16 <= p)
    && (forall g | g in h.R && g != f :: h.R[g] + 16 <= h.top || e + 16 <= g)
  }

  lemma MoveEndTags(m: Mem, m': Mem, h: Shape, f: int, e: int)
    requires TagsOk(m, h) && MayMove(h, f, e)
    requires m' == m[h.top + 8 := Head(e - h.top, true, false)][e + 8 := TOP_FOOT_SIZE]
    ensures TagsOk(m', MovedEnd(h, f, e))
  {
    hide ChunkOk, RegionOk;
    var h' := MovedEnd(h, f, e);
    forall p | p in h'.C ensures ChunkOk(m', h', p) && exists g :: Inside(h', p, g) {
      if p == h.top {
        MovedTop(m, m', h, f, e);
        assert Inside(h', p, f);
      } else {
        MovedOther(m, m', h, f, e, p);
        var g :| Inside(h, p, g);
        MovedInside(m, h, f, e, p, g);
      }
    }
    forall g | g in h'.R ensures RegionOk(m', h', g) {
      MovedRegion(m, m', h, f, e, g);
    }
    TagsFrom(m', h');
  }

  lemma MovedTop(m: Mem, m': Mem, h: Shape, f: int, e: int)
    requires TagsOk(m, h) && MayMove(h, f, e)
    requires m' == m[h.top + 8 := Head(e - h.top, true, false)][e + 8 := TOP_FOOT_SIZE]
    ensures ChunkOk(m', MovedEnd(h, f, e), h.top)
  {
    hide RegionOk, Apart, TagsOk, Head;
    var h' := MovedEnd(h, f, e);
    HeadFacts(m, h, h.top);
    assert h.top !in h.U by { ApartOfTop(m, h); }
    assert h'.R[f] == e && IsEnd(h', e);
    EightsApart(h.top, e);
    HeadWord(e - h.top, true, false);
    assert Pinuse(TOP_FOOT_SIZE) == false;
  }

  lemma MovedHead(m: Mem, h: Shape, f: int, e: int)
    requires TagsOk(m, h) && MayMove(h, f, e)
    ensures Pinuse(Head(e - h.top, true, false)) && Pinuse(Rd(m, h.top + 8))
  {
    hide ChunkOk, RegionOk, Apart, Head, Pinuse;
    HeadFacts(m, h, h.top);
    EightsApart(h.top, e);
    HeadWord(e - h.top, true, false);
  }

  lemma ApartOfTop(m: Mem, h: Shape)
    requires TagsOk(m, h) && h.top != 0
    ensures h.top in h.C && h.top !in h.U && h.top + h.C[h.top] !in h.C
  {
  }

  lemma SameEnd(m: Mem, h: Shape, p: int, q: int)
    requires TagsOk(m, h) && p in h.C && q in h.C && p + h.C[p] == q + h.C[q]
    ensures p == q
  {
    hide ChunkOk, RegionOk;
    Room(m, h, p);
    Room(m, h, q);
  }

  lemma BehindTopNothing(m: Mem, h: Shape, f: int, p: int)
    requires TagsOk(m, h) && h.top in h.C && f in h.R && h.R[f] == h.top + h.C[h.top] && p in h.C && p > h.top
    ensures p >= h.R[f]
  {
    hide ChunkOk, RegionOk;
  }

  lemma MovedOther(m: Mem, m': Mem, h: Shape, f: int, e: int, p: int)
    requires TagsOk(m, h) && MayMove(h, f, e) && p in h.C && p != h.top
    requires m' == m[h.top + 8 := Head(e - h.top, true, false)][e + 8 := TOP_FOOT_SIZE]
    ensures ChunkOk(m', MovedEnd(h, f, e), p)
  {
    hide RegionOk, Apart, Head;
    var h' := MovedEnd(h, f, e);
    ChunkFacts(m, h, p);
    Room(m, h, h.top);
    Room(m, h, p);
    var n := p + h.C[p];
    if n !in h.C {
      var g :| g in h.R && h.R[g] == n;
      if g == f { SameEnd(m, h, p, h.top); }
      assert h'.R[g] == n;
      assert IsEnd(h', n);
    }
    MovedHead(m, h, f, e);
    MovedWords(m, m', h, f, e, p);
    PreviousKept(m, h, h', p);
    ChunkKept(m, m', h, h', p);
  }

  lemma PreviousKept(m: Mem, h: Shape, h': Shape, p: int)
    requires TagsOk(m, h) && p in h.C && h'.U == h.U && forall q | q in h.C && q != h.top ::
      q in h'.C && h'.C[q] == h.C[q]
    requires h'.top == h.top || h'.top in h.U || h'.top !in h.C
    ensures !Pinuse(Rd(m, p + 8)) ==>
      var q := p - Rd(m, p); q in h'.C && q in h.C && h'.C[q] == h.C[q] && q !in h'.U && q != h'.top
  {
    hide HeadOk, FootOk, RegionOk, Apart;
    ChunkFacts(m, h, p);
  }

  lemma MovedWords(m: Mem, m': Mem, h: Shape, f: int, e: int, p: int)
    requires TagsOk(m, h) && MayMove(h, f, e) && p in h.C && p != h.top && h.C[p] > 0
    requires m' == m[h.top + 8 := Head(e - h.top, true, false)][e + 8 := TOP_FOOT_SIZE]
    requires Pinuse(Head(e - h.top, true, false)) && Pinuse(Rd(m, h.top + 8))
    requires p + h.C[p] in h.C || IsEnd(MovedEnd(h, f, e), p + h.C[p])
    ensures Alike(m, m', h, MovedEnd(h, f, e), p)
  {
    hide TagsOk, Head, Pinuse, IsEnd;
    assert p != h.top + 8 && p != e + 8 && p != e;
  }

  lemma MovedInside(m: Mem, h: Shape, f: int, e: int, p: int, g: int)
    requires TagsOk(m, h) && MayMove(h, f, e) && p in h.C && p != h.top && Inside(h, p, g)
    ensures Inside(MovedEnd(h, f, e), p, g)
  {
    hide ChunkOk, Apart;
    if g == f && p > h.top {
      BehindTopNothing(m, h, f, p);
      Room(m, h, p);
    }
  }

  lemma MovedRegion(m: Mem, m': Mem, h: Shape, f: int, e: int, g: int)
    requires TagsOk(m, h) && MayMove(h, f, e) && g in h.R
    requires m' == m[h.top + 8 := Head(e - h.top, true, false)][e + 8 := TOP_FOOT_SIZE]
    ensures RegionOk(m', MovedEnd(h, f, e), g)
  {
    hide TagsOk, Head, Pinuse, RegionOk;
    MovedHead(m, h, f, e);
    if g == f {
      MovedEndRegion(m, m', h, f, e);
    } else {
      MovedFarRegion(m, m', h, f, e, g);
    }
  }

  lemma MovedFarRegion(m: Mem, m': Mem, h: Shape, f: int, e: int, g: int)
    requires TagsOk(m, h) && MayMove(h, f, e) && g in h.R && g != f && Pinuse(Head(e - h.top, true, false))
    requires m' == m[h.top + 8 := Head(e - h.top, true, false)][e + 8 := TOP_FOOT_SIZE]
    ensures RegionOk(m', MovedEnd(h, f, e), g)
  {
    hide TagsOk, Head, Pinuse;
    var h' := MovedEnd(h, f, e);
    RegionFirst(m, h, g);
    RegionFirst(m, h, f);
    Room(m, h, h.top);
    Room(m, h, g);
    var d := h.R[g];
    EndOfEights(m, h, g);
    assert d + 16 <= h.top || e + 16 <= g;
    assert EndHead(h', d) == FENCEPOST_HEAD && EndHead(h, d) == FENCEPOST_HEAD;
    assert Rd(m', d + 8) == Rd(m, d + 8);
    forall p | p in h'.C ensures p + h'.C[p] <= d || d + 16 <= p {
      assert p in h.C;
    }
    forall x | x in h'.R && g < x ensures d + 16 <= x {
      assert x in h.R;
    }
  }

  lemma MovedEndRegion(m: Mem, m': Mem, h: Shape, f: int, e: int)
    requires TagsOk(m, h) && MayMove(h, f, e) && Pinuse(Head(e - h.top, true, false))
    requires m' == m[h.top + 8 := Head(e - h.top, true, false)][e + 8 := TOP_FOOT_SIZE]
    ensures RegionOk(m', MovedEnd(h, f, e), f)
  {
    hide TagsOk, Head, Pinuse;
    var h' := MovedEnd(h, f, e);
    RegionFirst(m, h, f);
    Room(m, h, h.top);
    assert EndHead(h', e) == TOP_FOOT_SIZE;
    forall p | p in h'.C ensures (p + h'.C[p] <= e || e + 16 <= p) && p != e {
      Room(m, h, p);
    }
    forall g | g in h'.R && f < g ensures e + 16 <= g {
      RegionFirst(m, h, g);
      assert h.R[f] + 16 <= g;
    }
  }

  /** init_top on a top that stays where it is. */
  lemma MoveEndHeap(m: Mem, m': Mem, b: BinState, h: Shape, k: Marks, leastAddr: int, X: set<int>, f: int, e: int)
    requires HeapOk(m, b, h, k, leastAddr, X) && MayMove(h, f, e)
    requires m' == m[h.top + 8 := Head(e - h.top, true, false)][e + 8 := TOP_FOOT_SIZE]
    ensures HeapOk(m', b, MovedEnd(h, f, e), k.(topsize := e - h.top), leastAddr, X)
  {
    hide BinsOk, Binned, Head;
    var h' := MovedEnd(h, f, e);
    MoveEndTags(m, m', h, f, e);
    BinnedPlaces(m, b, h.C, leastAddr);
    Room(m, h, h.top);
    forall p | p in Binned(b) ensures SameChunk(m, m', h.C, h'.C, p) {
      MovedBinned(m, m', h, f, e, p);
    }
    BinsKeep(m, m', b, h.C, h'.C, leastAddr);
    assert Spare(b, h') == Spare(b, h);
  }

  lemma MovedBinned(m: Mem, m': Mem, h: Shape, f: int, e: int, p: int)
    requires TagsOk(m, h) && MayMove(h, f, e) && p in h.C && p != h.top
    requires m' == m[h.top + 8 := Head(e - h.top, true, false)][e + 8 := TOP_FOOT_SIZE]
    ensures SameChunk(m, m', h.C, MovedEnd(h, f, e).C, p)
  {
    hide ChunkOk, RegionOk, Head;
    Room(m, h, p);
  }

  // ---------------------------------------------------------------------------------------
  // Top gives way to a segment record and fenceposts

  /** The old top becomes an ordinary free chunk, and a record of 48 bytes with a fencepost behind it
      follows; a top too small for that becomes the record itself. */
  function Capped(h: Shape, f: int): Shape
    requires h.top in h.C
  {
    var t, s := h.top, CapSize(h.C[h.top]);
    if h.C[t] < MIN_CHUNK_SIZE then
      h.(C := h.C[t := 48], U := h.U + {t}, R := h.R[f := t + 48], top := 0)
    else
      h.(C := h.C[t := s][t + s := 48], U := h.U + {t + s}, R := h.R[f := t + s + 48], top := 0)
  }

  /** The size of the ordinary chunk that a top of s bytes becomes. */
  function CapSize(s: int): int {
    s - s % 16
  }

  lemma CapSizeIs(s: int)
    requires s % 8 == 0 && s > 0
    ensures var c := CapSize(s);
      c % 16 == 0 && c % 8 == 0 && c <= s <= c + 8 && (s >= MIN_CHUNK_SIZE ==> c >= MIN_CHUNK_SIZE)
  {
  }

  /** The memory behind top in its region is free up to the end of its segment. */
  ghost predicate MayCap(h: Shape, f: int) {
    && h.top in h.C && Inside(h, h.top, f) && h.R[f] == h.top + h.C[h.top] && h.R[f] + 80 <= WORD
    && (forall p | p in h.C && p != h.top :: p + h.C[p] <= h.top || h.R[f] + 80 <= p)
    && (forall g | g in h.R && g != f :: h.R[g] + 16 <= h.top || h.R[f] + 80 <= g)
  }

  /** The tags that add_segment writes at the end of the old top. */
  ghost predicate CapWrites(m: Mem, m': Mem, t: int, size: int) {
    var s := CapSize(size);
    && (forall a {:trigger Rd(m', a)} | !(t + 8 <= a < t + size + 80) :: Rd(m', a) == Rd(m, a))
    && if size < MIN_CHUNK_SIZE then
         Rd(m', t + 8) == Head(48, true, true) && Rd(m', t + 56) == FENCEPOST_HEAD
       else
         && Rd(m', t + 8) == Head(s, true, false) && Rd(m', t + s) == s
         && Rd(m', t + s + 8) == Head(48, false, true) && Rd(m', t + s + 56) == FENCEPOST_HEAD
  }

  lemma CapPlaces(m: Mem, h: Shape, f: int)
    requires TagsOk(m, h) && MayCap(h, f)
    ensures var t, s, c, h' := h.top, h.C[h.top], CapSize(h.C[h.top]), Capped(h, f);
      && t % 16 == 0 && c % 16 == 0 && 8 <= s && c <= s <= c + 8 && t >= HEAP_MIN && t !in h.U
      && (s >= MIN_CHUNK_SIZE ==> c >= MIN_CHUNK_SIZE && t + c !in h.C && t + c !in h.U)
      && t + s !in h.C && t + s !in h.U && Pinuse(Rd(m, t + 8))
      && Apart(h'.C) && 0 !in h'.C && h'.U <= h'.C.Keys && TopOk(h')
  {
    hide ChunkOk, RegionOk, CapSize;
    HeadFacts(m, h, h.top);
    ApartOfTop(m, h);
    CapSizeIs(h.C[h.top]);
  }

  lemma CapOther(m: Mem, m': Mem, h: Shape, f: int, p: int)
    requires TagsOk(m, h) && MayCap(h, f) && CapWrites(m, m', h.top, h.C[h.top]) && p in h.C && p != h.top
    ensures ChunkOk(m', Capped(h, f), p)
  {
    hide RegionOk, Apart, Head, CapWrites, CapSize;
    var h' := Capped(h, f);
    CapPlaces(m, h, f);
    Room(m, h, h.top);
    ChunkFacts(m, h, p);
    Room(m, h, p);
    var n := p + h.C[p];
    if n !in h.C {
      var g :| g in h.R && h.R[g] == n;
      if g == f { SameEnd(m, h, p, h.top); }
      assert h'.R[g] == n;
      assert IsEnd(h', n);
    }
    CapWords(m, m', h, f, p);
    CapPrevious(m, h, f, p);
    ChunkKept(m, m', h, h', p);
  }

  lemma CapPrevious(m: Mem, h: Shape, f: int, p: int)
    requires TagsOk(m, h) && MayCap(h, f) && p in h.C && h.top !in h.U
    requires h.C[h.top] >= MIN_CHUNK_SIZE ==> h.top + CapSize(h.C[h.top]) !in h.C
    ensures var h' := Capped(h, f); !Pinuse(Rd(m, p + 8)) ==>
      var q := p - Rd(m, p); q in h'.C && q in h.C && h'.C[q] == h.C[q] && q !in h'.U && q != h'.top
  {
    hide HeadOk, FootOk, RegionOk, Apart, CapSize;
    ChunkFacts(m, h, p);
  }

  lemma CapWords(m: Mem, m': Mem, h: Shape, f: int, p: int)
    requires TagsOk(m, h) && MayCap(h, f) && CapWrites(m, m', h.top, h.C[h.top]) && p in h.C && p != h.top
      && h.C[p] > 0 && p != 0
    requires Pinuse(Rd(m, h.top + 8)) && h.C[h.top] > 0 && h.top != 0
    requires var c := CapSize(h.C[h.top]); c % 16 == 0 && 0 <= c <= h.C[h.top]
    requires p + h.C[p] in Capped(h, f).C || IsEnd(Capped(h, f), p + h.C[p])
    ensures Alike(m, m', h, Capped(h, f), p)
  {
    hide TagsOk, Pinuse, IsEnd, Head, CapSize;
    HeadWord(48, true, true);
    EvenWord(CapSize(h.C[h.top]));
  }

  lemma EvenWord(c: int)
    requires c % 16 == 0
    ensures Pinuse(Head(c, true, false))
  {
    HeadWord(c, true, false);
  }

  /** The record, and the old top before it. */
  lemma CapSmall(m: Mem, m': Mem, h: Shape, f: int)
    requires TagsOk(m, h) && MayCap(h, f) && CapWrites(m, m', h.top, h.C[h.top]) && h.C[h.top] < MIN_CHUNK_SIZE
    ensures ChunkOk(m', Capped(h, f), h.top)
  {
    hide CapSize, RegionOk, Apart, TagsOk, Head;
    CapPlaces(m, h, f);
    var h' := Capped(h, f);
    HeadWord(48, true, true);
    assert h'.R[f] == h.top + 48;
    assert IsEnd(h', h.top + 48);
  }

  lemma CapRecord(m: Mem, m': Mem, h: Shape, f: int)
    requires TagsOk(m, h) && MayCap(h, f) && CapWrites(m, m', h.top, h.C[h.top]) && h.C[h.top] >= MIN_CHUNK_SIZE
    ensures ChunkOk(m', Capped(h, f), h.top + CapSize(h.C[h.top]))
  {
    hide CapSize, RegionOk, Apart, TagsOk, Head;
    CapPlaces(m, h, f);
    var h', r := Capped(h, f), h.top + CapSize(h.C[h.top]);
    HeadWord(48, false, true);
    AddSixteen(h.top, CapSize(h.C[h.top]));
    assert h'.R[f] == r + 48;
    assert IsEnd(h', r + 48);
  }

  lemma AddSixteen(a: int, b: int)
    requires a % 16 == 0 && b % 16 == 0
    ensures (a + b) % 16 == 0 && (a + b + 48) % 16 == 0 && (a + b + 48) % 8 == 0
  {
    var k := a / 16 + b / 16;
    assert a + b == 16 * k && a + b + 48 == 16 * (k + 3) && a + b + 48 == 8 * (2 * k + 6);
  }

  lemma CapFree(m: Mem, m': Mem, h: Shape, f: int)
    requires TagsOk(m, h) && MayCap(h, f) && CapWrites(m, m', h.top, h.C[h.top]) && h.C[h.top] >= MIN_CHUNK_SIZE
    ensures ChunkOk(m', Capped(h, f), h.top)
  {
    hide CapSize, RegionOk, Apart, TagsOk, Head, Pinuse, IsEnd;
    CapPlaces(m, h, f);
    var s := CapSize(h.C[h.top]);
    HeadWord(s, true, false);
    HeadWord(48, false, true);
  }

  lemma CapInside(m: Mem, h: Shape, f: int, p: int)
    requires TagsOk(m, h) && MayCap(h, f) && p in Capped(h, f).C
    ensures exists g :: Inside(Capped(h, f), p, g)
  {
    hide CapSize, ChunkOk, RegionOk, Apart;
    var h' := Capped(h, f);
    CapPlaces(m, h, f);
    if p == h.top || p == h.top + CapSize(h.C[h.top]) {
      assert f in h'.R && f <= h.top;
      Room(m, h, h.top);
      assert Inside(h', p, f);
    } else {
      var g :| Inside(h, p, g);
      assert Inside(h', p, g);
    }
  }

  lemma CapRegion(m: Mem, m': Mem, h: Shape, f: int, g: int)
    requires TagsOk(m, h) && MayCap(h, f) && CapWrites(m, m', h.top, h.C[h.top]) && g in h.R
    ensures RegionOk(m', Capped(h, f), g)
  {
    hide ChunkOk, RegionOk, Head;
    CapPlaces(m, h, f);
    RegionFirst(m, h, g);
    Room(m, h, h.top);
    if g == f { CapOwnRegion(m, m', h, f); } else { CapFarRegion(m, m', h, f, g); }
  }

  lemma CapFirst(m: Mem, m': Mem, f: int, t: int, s: int)
    requires CapWrites(m, m', t, s) && f <= t && Pinuse(Rd(m, f + 8))
    requires var c := CapSize(s); c % 16 == 0 && 0 <= c <= s
    ensures Pinuse(Rd(m', f + 8))
  {
    hide Head, Pinuse, CapSize;
    HeadWord(48, true, true);
    EvenWord(CapSize(s));
  }

  lemma CapOwnRegion(m: Mem, m': Mem, h: Shape, f: int)
    requires TagsOk(m, h) && MayCap(h, f) && CapWrites(m, m', h.top, h.C[h.top])
    ensures RegionOk(m', Capped(h, f), f)
  {
    hide TagsOk, Head, Pinuse, CapWrites, Apart, CapSize;
    CapPlaces(m, h, f);
    RegionFirst(m, h, f);
    Room(m, h, h.top);
    Room(m, h, f);
    var h' := Capped(h, f);
    CapFirst(m, m', f, h.top, h.C[h.top]);
    CapFence(m, m', h, f);
    CapAside(m, h, f);
  }

  lemma CapAside(m: Mem, h: Shape, f: int)
    requires TagsOk(m, h) && MayCap(h, f)
    ensures var h' := Capped(h, f); var e := h'.R[f];
      && (forall p | p in h'.C :: (p + h'.C[p] <= e || e + 16 <= p) && p != e)
      && (forall g | g in h'.R && f < g :: e + 16 <= g)
  {
    hide TagsOk, Head, Apart, CapSize, Pinuse;
    CapPlaces(m, h, f);
    var h' := Capped(h, f);
    var e := h'.R[f];
    RegionFirst(m, h, f);
    forall p | p in h'.C ensures (p + h'.C[p] <= e || e + 16 <= p) && p != e {
      if p in h.C && p != h.top { Room(m, h, p); assert h'.C[p] == h.C[p]; }
    }
    forall g | g in h'.R && f < g ensures e + 16 <= g {
      RegionFirst(m, h, g);
    }
  }

  lemma CapFence(m: Mem, m': Mem, h: Shape, f: int)
    requires TagsOk(m, h) && MayCap(h, f) && CapWrites(m, m', h.top, h.C[h.top])
    requires var c := CapSize(h.C[h.top]); c % 16 == 0 && 0 <= c <= h.C[h.top] && h.top % 16 == 0
    ensures var h' := Capped(h, f); var e := h'.R[f];
      e % 8 == 0 && Rd(m', e + 8) == FENCEPOST_HEAD && e > h.top && e <= h.R[f] + 48
  {
    hide TagsOk, Head, Pinuse, CapSize;
    AddSixteen(h.top, CapSize(h.C[h.top]));
    AddSixteen(h.top, 0);
    if h.C[h.top] < MIN_CHUNK_SIZE {
      assert Capped(h, f).R[f] == h.top + 48;
    } else {
      assert Capped(h, f).R[f] == h.top + CapSize(h.C[h.top]) + 48;
    }
  }

  lemma CapFarRegion(m: Mem, m': Mem, h: Shape, f: int, g: int)
    requires TagsOk(m, h) && MayCap(h, f) && CapWrites(m, m', h.top, h.C[h.top]) && g in h.R && g != f
    ensures RegionOk(m', Capped(h, f), g)
  {
    hide CapSize, TagsOk, Head, Pinuse, Apart;
    CapPlaces(m, h, f);
    RegionFirst(m, h, g);
    RegionFirst(m, h, f);
    Room(m, h, h.top);
    Room(m, h, g);
    var h', d := Capped(h, f), h.R[g];
    EndOfEights(m, h, g);
    assert d + 16 <= h.top || h.R[f] + 80 <= g;
    assert EndHead(h', d) == FENCEPOST_HEAD && EndHead(h, d) == FENCEPOST_HEAD;
    assert Rd(m', d + 8) == Rd(m, d + 8) && Rd(m', g + 8) == Rd(m, g + 8);
    forall p | p in h'.C ensures (p + h'.C[p] <= d || d + 16 <= p) && p != d {
      if p in h.C { Room(m, h, p); }
    }
    forall x | x in h'.R && g < x ensures d + 16 <= x {
      assert x in h.R;
    }
  }

  lemma CapTags(m: Mem, m': Mem, h: Shape, f: int)
    requires TagsOk(m, h) && MayCap(h, f) && CapWrites(m, m', h.top, h.C[h.top])
    ensures TagsOk(m', Capped(h, f))
  {
    hide ChunkOk, RegionOk, Apart, CapWrites, CapSize;
    var h' := Capped(h, f);
    CapPlaces(m, h, f);
    forall p | p in h'.C ensures ChunkOk(m', h', p) && exists g :: Inside(h', p, g) {
      CapInside(m, h, f, p);
      if p == h.top {
        if h.C[h.top] < MIN_CHUNK_SIZE { CapSmall(m, m', h, f); } else { CapFree(m, m', h, f); }
      } else if p == h.top + CapSize(h.C[h.top]) && h.C[h.top] >= MIN_CHUNK_SIZE {
        CapRecord(m, m', h, f);
      } else {
        CapOther(m, m', h, f, p);
      }
    }
    forall g | g in h'.R ensures RegionOk(m', h', g) {
      assert g in h.R;
      CapRegion(m, m', h, f, g);
    }
    TagsFrom(m', h');
  }

  /** After add_segment dealt with the old top: it is spare, unless it became the record. */
  lemma CapHeap(m: Mem, m': Mem, b: BinState, h: Shape, k: Marks, leastAddr: int, f: int)
    requires HeapOk(m, b, h, k, leastAddr, {}) && MayCap(h, f) && CapWrites(m, m', h.top, h.C[h.top])
    ensures HeapOk(m', b, Capped(h, f), k.(top := 0, topsize := 0), leastAddr,
                if h.C[h.top] < MIN_CHUNK_SIZE then {} else {h.top})
  {
    hide TagsOk, BinsOk, Binned, Apart, Head, CapSize;
    var h' := Capped(h, f);
    CapTags(m, m', h, f);
    CapPlaces(m, h, f);
    BinnedPlaces(m, b, h.C, leastAddr);
    forall p | p in Binned(b) ensures SameChunk(m, m', h.C, h'.C, p) {
      CapBinned(m, m', h, f, p);
    }
    BinsKeep(m, m', b, h.C, h'.C, leastAddr);
    CapSpare(m, b, h, k, f);
  }

  lemma CapBinned(m: Mem, m': Mem, h: Shape, f: int, p: int)
    requires TagsOk(m, h) && MayCap(h, f) && CapWrites(m, m', h.top, h.C[h.top]) && p in h.C && p != h.top
    requires h.C[h.top] >= MIN_CHUNK_SIZE ==> h.top + CapSize(h.C[h.top]) !in h.C
    ensures SameChunk(m, m', h.C, Capped(h, f).C, p)
  {
    hide ChunkOk, RegionOk, Head, CapSize;
    Room(m, h, p);
  }

  lemma CapSpare(m: Mem, b: BinState, h: Shape, k: Marks, f: int)
    requires Spare(b, h) == k.Held() && MarksOk(h, k) && h.top in h.C && h.top !in h.U
      && h.top !in Binned(b) && h.top != 0
    requires Binned(b) <= h.C.Keys && 0 !in h.C && h.top > 0 && h.C[h.top] > 0 && h.U <= h.C.Keys
    requires h.C[h.top] >= MIN_CHUNK_SIZE ==>
      h.top + CapSize(h.C[h.top]) !in h.C && CapSize(h.C[h.top]) >= MIN_CHUNK_SIZE
    ensures Spare(b, Capped(h, f)) ==
      k.(top := 0, topsize := 0).Held() + (if h.C[h.top] < MIN_CHUNK_SIZE then {} else {h.top})
    ensures MarksOk(Capped(h, f), k.(top := 0, topsize := 0))
  {
    hide Binned, CapSize;
    var h' := Capped(h, f);
    assert Free(h') == if h.C[h.top] < MIN_CHUNK_SIZE then Free(h) - {h.top} else Free(h);
    assert k.(top := 0, topsize := 0).Held() == k.Held() - {h.top};
    assert h.top in Spare(b, h);
  }

  // ---------------------------------------------------------------------------------------
  // A region grows at its front

  /** A chunk in use before the first chunk of the region f. */
  function Fronted(h: Shape, f: int, p: int): Shape
    requires f in h.R
  {
    Shape(h.C[p := f - p], h.U + {p}, (h.R - {f})[p := h.R[f]], h.top)
  }

  ghost predicate MayFront(h: Shape, f: int, p: int) {
    && f in h.R && HEAP_MIN <= p && p + MIN_CHUNK_SIZE <= f && p % 16 == 0
    && (forall q | q in h.C :: q + h.C[q] <= p || f <= q)
    && (forall g | g in h.R && g != f :: h.R[g] + 16 <= p || f <= g)
  }

  lemma FrontPlaces(m: Mem, h: Shape, f: int, p: int)
    requires TagsOk(m, h) && MayFront(h, f, p)
    ensures p !in h.C && p !in h.U && p !in h.R && f % 16 == 0 && (f - p) % 16 == 0 && f <= WORD
    ensures var h' := Fronted(h, f, p); Apart(h'.C) && 0 !in h'.C && h'.U <= h'.C.Keys && TopOk(h')
  {
    hide ChunkOk, RegionOk;
    if p in h.C { Room(m, h, p); }
    RegionFirst(m, h, f);
    HeadFacts(m, h, f);
    if p in h.R { RegionFirst(m, h, p); }
    Sixteens(p, f);
    FrontTop(m, h, f, p);
    forall q | q in h.C ensures q + h.C[q] <= p || f <= q { Room(m, h, q); }
  }

  lemma FrontTop(m: Mem, h: Shape, f: int, p: int)
    requires TagsOk(m, h) && MayFront(h, f, p) && p !in h.C
    ensures h.top != 0 ==> h.top + h.C[h.top] != p
  {
    hide ChunkOk, RegionOk, Apart;
    if h.top != 0 {
      ApartOfTop(m, h);
      FootFacts(m, h, h.top);
      var n := h.top + h.C[h.top];
      var g :| g in h.R && h.R[g] == n;
      RegionFirst(m, h, g);
      RegionFirst(m, h, f);
    }
  }

  lemma FrontChunk(m: Mem, m': Mem, h: Shape, f: int, p: int)
    requires TagsOk(m, h) && MayFront(h, f, p) && m' == m[p + 8 := Head(f - p, true, true)]
    ensures ChunkOk(m', Fronted(h, f, p), p)
  {
    hide RegionOk, Apart, TagsOk, Head, Pinuse, IsEnd;
    FrontPlaces(m, h, f, p);
    RegionFirst(m, h, f);
    HeadWord(f - p, true, true);
    if p == h.top { ApartOfTop(m, h); }
  }

  lemma FrontOther(m: Mem, m': Mem, h: Shape, f: int, p: int, q: int)
    requires TagsOk(m, h) && MayFront(h, f, p) && m' == m[p + 8 := Head(f - p, true, true)] && q in h.C
    ensures ChunkOk(m', Fronted(h, f, p), q)
  {
    hide RegionOk, Apart, Head, Pinuse;
    var h' := Fronted(h, f, p);
    FrontPlaces(m, h, f, p);
    ChunkFacts(m, h, q);
    Room(m, h, q);
    var n := q + h.C[q];
    if n !in h.C {
      var g :| g in h.R && h.R[g] == n;
      assert h'.R[if g == f then p else g] == n;
      assert IsEnd(h', n);
      RegionFirst(m, h, g);
      RegionFirst(m, h, f);
    }
    FrontPrevious(m, h, f, p, q);
    assert Rd(m', q) == Rd(m, q) && Rd(m', q + 8) == Rd(m, q + 8);
    assert n != p;
    ChunkKept(m, m', h, h', q);
  }

  lemma FrontPrevious(m: Mem, h: Shape, f: int, p: int, q: int)
    requires TagsOk(m, h) && f in h.R && q in h.C && p !in h.C
    ensures var h' := Fronted(h, f, p); !Pinuse(Rd(m, q + 8)) ==>
      var r := q - Rd(m, q); r in h'.C && r in h.C && h'.C[r] == h.C[r] && r !in h'.U && r != h'.top
  {
    hide HeadOk, FootOk, RegionOk, Apart;
    ChunkFacts(m, h, q);
  }

  lemma FrontInside(m: Mem, h: Shape, f: int, p: int, q: int)
    requires TagsOk(m, h) && MayFront(h, f, p) && q in Fronted(h, f, p).C
    ensures exists g :: Inside(Fronted(h, f, p), q, g)
  {
    hide ChunkOk, RegionOk, Apart;
    var h' := Fronted(h, f, p);
    FrontPlaces(m, h, f, p);
    RegionFirst(m, h, f);
    if q == p {
      assert Inside(h', p, p);
    } else {
      var g :| Inside(h, q, g);
      assert Inside(h', q, if g == f then p else g);
    }
  }

  lemma FrontRegion(m: Mem, m': Mem, h: Shape, f: int, p: int, g: int)
    requires TagsOk(m, h) && MayFront(h, f, p) && m' == m[p + 8 := Head(f - p, true, true)] && g in Fronted(h, f, p).R
    ensures RegionOk(m', Fronted(h, f, p), g)
  {
    hide TagsOk, Head, Pinuse, Apart;
    var h' := Fronted(h, f, p);
    FrontPlaces(m, h, f, p);
    RegionFirst(m, h, f);
    HeadWord(f - p, true, true);
    var g0 := if g == p then f else g;
    RegionFirst(m, h, g0);
    Room(m, h, g0);
    Room(m, h, f);
    EndOfEights(m, h, g0);
    var e := h.R[g0];
    assert EndHead(h', e) == EndHead(h, e) by { FrontEnd(m, h, f, p, e); }
    FrontAside(m, h, f, p, g);
  }

  lemma FrontAside(m: Mem, h: Shape, f: int, p: int, g: int)
    requires TagsOk(m, h) && MayFront(h, f, p) && g in Fronted(h, f, p).R && f in h.R
    ensures var h' := Fronted(h, f, p); var e := h'.R[g];
      && (forall q | q in h'.C :: (q + h'.C[q] <= e || e + 16 <= q) && q != e)
      && (forall x | x in h'.R && g < x :: e + 16 <= x)
  {
    hide TagsOk, Apart;
    var h' := Fronted(h, f, p);
    FrontPlaces(m, h, f, p);
    RegionFirst(m, h, f);
    var g0 := if g == p then f else g;
    RegionFirst(m, h, g0);
    Room(m, h, g0);
    Room(m, h, f);
    var e := h.R[g0];
    assert g != p ==> e + 16 <= p || f <= g;
    forall q | q in h'.C ensures (q + h'.C[q] <= e || e + 16 <= q) && q != e {
      if q in h.C { Room(m, h, q); }
    }
    forall x | x in h'.R && g < x ensures e + 16 <= x {
      if x != p { assert x in h.R; RegionFirst(m, h, x); }
    }
  }

  lemma FrontEnd(m: Mem, h: Shape, f: int, p: int, e: int)
    requires TagsOk(m, h) && MayFront(h, f, p) && p !in h.C
    ensures EndHead(Fronted(h, f, p), e) == EndHead(h, e)
  {
    hide ChunkOk, RegionOk, Apart;
    if h.top == p { ApartOfTop(m, h); }
  }

  lemma FrontTags(m: Mem, m': Mem, h: Shape, f: int, p: int)
    requires TagsOk(m, h) && MayFront(h, f, p) && m' == m[p + 8 := Head(f - p, true, true)]
    ensures TagsOk(m', Fronted(h, f, p))
  {
    hide ChunkOk, RegionOk, Apart, Head;
    var h' := Fronted(h, f, p);
    FrontPlaces(m, h, f, p);
    forall q | q in h'.C ensures ChunkOk(m', h', q) && exists g :: Inside(h', q, g) {
      FrontInside(m, h, f, p, q);
      if q == p { FrontChunk(m, m', h, f, p); } else { FrontOther(m, m', h, f, p, q); }
    }
    forall g | g in h'.R ensures RegionOk(m', h', g) {
      FrontRegion(m, m', h, f, p, g);
    }
    TagsFrom(m', h');
  }

  lemma FrontedHeap(m: Mem, m': Mem, b: BinState, h: Shape, k: Marks, leastAddr: int, X: set<int>, f: int, p: int)
    requires HeapOk(m, b, h, k, leastAddr, X) && MayFront(h, f, p) && leastAddr <= p
    requires m' == m[p + 8 := Head(f - p, true, true)]
    ensures HeapOk(m', b, Fronted(h, f, p), k, leastAddr, X)
  {
    hide TagsOk, BinsOk, Binned, Apart, Head;
    var h' := Fronted(h, f, p);
    FrontTags(m, m', h, f, p);
    FrontPlaces(m, h, f, p);
    BinnedPlaces(m, b, h.C, leastAddr);
    forall q | q in Binned(b) ensures SameChunk(m, m', h.C, h'.C, q) {
      Room(m, h, q);
    }
    BinsKeep(m, m', b, h.C, h'.C, leastAddr);
    assert Free(h') == Free(h);
    assert Spare(b, h') == Spare(b, h);
  }

  // ---------------------------------------------------------------------------------------
  // A region goes away

  function Dropped(h: Shape, f: int): Shape
    requires f in h.C
  {
    Shape(h.C - {f, f + h.C[f]}, h.U - {f + h.C[f]}, h.R - {f}, h.top)
  }

  /** The region f holds a free chunk that is not top and, behind it, a segment record. */
  ghost predicate MayDrop(h: Shape, f: int) {
    && f in h.R && f in h.C && f !in h.U && f != h.top
    && var r := f + h.C[f]; r in h.C && r in h.U && r + h.C[r] == h.R[f]
  }

  lemma DropPlaces(m: Mem, h: Shape, f: int)
    requires TagsOk(m, h) && MayDrop(h, f)
    ensures var r := f + h.C[f];
      && f < r < h.R[f] && h.top != r
      && (forall p | p in h.C && f <= p < h.R[f] :: p == f || p == r)
      && (forall p | p in h.C && p != f && p != r :: p + h.C[p] <= f || h.R[f] + 16 <= p)
    ensures var h' := Dropped(h, f); Apart(h'.C) && 0 !in h'.C && h'.U <= h'.C.Keys && TopOk(h')
  {
    hide ChunkOk, RegionOk;
    var r := f + h.C[f];
    Room(m, h, f);
    Room(m, h, r);
    RegionFirst(m, h, f);
    DropAside(m, h, f);
  }

  lemma DropAside(m: Mem, h: Shape, f: int)
    requires TagsOk(m, h) && MayDrop(h, f)
    ensures var r := f + h.C[f];
      && (forall p | p in h.C && f <= p < h.R[f] :: p == f || p == r)
      && (forall p | p in h.C && p != f && p != r :: p + h.C[p] <= f || h.R[f] + 16 <= p)
  {
    var r := f + h.C[f];
    Room(m, h, f);
    Room(m, h, r);
    RegionFirst(m, h, f);
    forall p | p in h.C && p != f && p != r ensures p + h.C[p] <= f || h.R[f] + 16 <= p { Room(m, h, p); }
  }

  lemma DropOther(m: Mem, h: Shape, f: int, p: int)
    requires TagsOk(m, h) && MayDrop(h, f) && p in h.C && p != f && p != f + h.C[f]
    ensures ChunkOk(m, Dropped(h, f), p)
  {
    hide RegionOk, Apart, Pinuse;
    var h' := Dropped(h, f);
    DropPlaces(m, h, f);
    ChunkFacts(m, h, p);
    Room(m, h, p);
    var n, r := p + h.C[p], f + h.C[f];
    if n !in h.C {
      var g :| g in h.R && h.R[g] == n;
      if g == f { SameEnd(m, h, p, r); }
      assert h'.R[g] == n;
      assert IsEnd(h', n);
    } else {
      DropNext(m, h, f, p);
    }
    DropPrevious(m, h, f, p);
    ChunkKept(m, m, h, h', p);
  }

  lemma DropNext(m: Mem, h: Shape, f: int, p: int)
    requires TagsOk(m, h) && MayDrop(h, f) && p in h.C && p != f && p != f + h.C[f] && p + h.C[p] in h.C
    ensures var n := p + h.C[p]; n != f && n != f + h.C[f]
  {
    hide RegionOk, Apart, BackOk;
    var n := p + h.C[p];
    if n == f {
      RegionFirst(m, h, f);
      Room(m, h, p);
      FirstHasNoPrevious(m, h, f, p);
    } else if n == f + h.C[f] {
      SameEnd(m, h, p, f);
    }
  }

  lemma FirstHasNoPrevious(m: Mem, h: Shape, f: int, p: int)
    requires TagsOk(m, h) && f in h.R && p in h.C && h.C[p] > 0
    ensures p + h.C[p] != f
  {
    hide ChunkOk, Apart;
    var g :| Inside(h, p, g);
    assert RegionOk(m, h, g) && RegionOk(m, h, f);
  }

  lemma DropPrevious(m: Mem, h: Shape, f: int, p: int)
    requires TagsOk(m, h) && MayDrop(h, f) && p in h.C && p != f && p != f + h.C[f]
    ensures var h' := Dropped(h, f); !Pinuse(Rd(m, p + 8)) ==>
      var q := p - Rd(m, p); q in h'.C && q in h.C && h'.C[q] == h.C[q] && q !in h'.U && q != h'.top
  {
    hide HeadOk, FootOk, RegionOk, Apart;
    ChunkFacts(m, h, p);
  }

  lemma DropInside(m: Mem, h: Shape, f: int, p: int)
    requires TagsOk(m, h) && MayDrop(h, f) && p in h.C && p != f && p != f + h.C[f]
    ensures exists g :: Inside(Dropped(h, f), p, g)
  {
    hide ChunkOk, RegionOk, Apart;
    DropPlaces(m, h, f);
    Room(m, h, p);
    var g :| Inside(h, p, g);
    assert Inside(Dropped(h, f), p, g);
  }

  lemma DropRegion(m: Mem, h: Shape, f: int, g: int)
    requires TagsOk(m, h) && MayDrop(h, f) && g in h.R && g != f
    ensures RegionOk(m, Dropped(h, f), g)
  {
    hide ChunkOk, Apart;
    DropPlaces(m, h, f);
    assert RegionOk(m, h, g);
    RegionFirst(m, h, f);
    Room(m, h, g);
    var h' := Dropped(h, f);
    assert g != f + h.C[f] by { if g == f + h.C[f] { Room(m, h, f); FirstHasNoPrevious(m, h, g, f); } }
    assert EndHead(h', h.R[g]) == EndHead(h, h.R[g]) by { DropEnd(m, h, f, h.R[g]); }
  }

  lemma DropEnd(m: Mem, h: Shape, f: int, e: int)
    requires TagsOk(m, h) && MayDrop(h, f)
    ensures EndHead(Dropped(h, f), e) == EndHead(h, e)
  {
    hide ChunkOk, RegionOk, Apart;
    DropPlaces(m, h, f);
  }

  lemma DropTags(m: Mem, h: Shape, f: int)
    requires TagsOk(m, h) && MayDrop(h, f)
    ensures TagsOk(m, Dropped(h, f))
  {
    hide ChunkOk, RegionOk, Apart;
    var h' := Dropped(h, f);
    DropPlaces(m, h, f);
    forall p | p in h'.C ensures ChunkOk(m, h', p) && exists g :: Inside(h', p, g) {
      DropOther(m, h, f, p);
      DropInside(m, h, f, p);
    }
    forall g | g in h'.R ensures RegionOk(m, h', g) {
      DropRegion(m, h, f, g);
    }
    TagsFrom(m, h');
  }

  /** A region whose free chunk was taken out of its bin is given back. */
  lemma DropHeap(m: Mem, b: BinState, h: Shape, k: Marks, leastAddr: int, f: int)
    requires HeapOk(m, b, h, k, leastAddr, {f}) && MayDrop(h, f)
    ensures HeapOk(m, b, Dropped(h, f), k, leastAddr, {})
  {
    hide TagsOk, BinsOk, Binned, Apart;
    var h' := Dropped(h, f);
    var r := f + h.C[f];
    DropTags(m, h, f);
    DropPlaces(m, h, f);
    assert f in Spare(b, h);
    assert r !in Free(h);
    forall q | q in Binned(b) ensures SameChunk(m, m, h.C, h'.C, q) {
      assert q != f && q != r;
      BinnedThere(m, b, h, leastAddr, q);
    }
    BinsKeep(m, m, b, h.C, h'.C, leastAddr);
    assert Free(h') == Free(h) - {f};
    assert Spare(b, h') == Spare(b, h) - {f};
  }

  lemma BinnedThere(m: Mem, b: BinState, h: Shape, leastAddr: int, q: int)
    requires Core(m, b, h, leastAddr) && q in Binned(b)
    ensures q in h.C
  {
    hide TagsOk, BinsOk, Binned;
    assert q in Free(h);
  }
}
