/** Freeing a chunk merges it with the free chunks around it (malloc.c, dispose_chunk and dlfree). */
module Freeing {
  import opened ChunkMemory
  import opened TreeState
  import opened AllBins
  import opened Chunks
  import opened HeapState
  import opened Recuts
  import opened TagWrites
  import opened HeapBins
  import opened HeapInvariant
  import opened Carving

  /** The space from lo to p is p itself, or a free chunk before it. */
  predicate Joint(h: Shape, lo: int, p: int) {
    lo == p || (lo in h.C && lo !in h.U && lo + h.C[lo] == p)
  }

  /** lo is p, or the free chunk before p after it was taken out of its bin, or dv. */
  predicate FrontOk(h: Shape, k: Marks, X: set<int>, lo: int, p: int) {
    Joint(h, lo, p) && if lo == p then X == {} else if lo == k.dv then X == {} else X == {lo}
  }

  /** What is known where freeing p starts. */
  ghost predicate Front(m: Mem, b: BinState, h: Shape, k: Marks, leastAddr: int, X: set<int>, Y: set<int>,
                        lo: int, p: int) {
    && HeapOk(m, b, h, k, leastAddr, X + Y) && FrontOk(h, k, X, lo, p)
    && p in h.U && p in h.C && p + h.C[p] in h.C
    && Pinuse(Rd(m, lo + 8)) && lo in h.C
  }

  lemma FrontSpare(m: Mem, b: BinState, h: Shape, k: Marks, leastAddr: int, X: set<int>, Y: set<int>, lo: int, p: int)
    requires Front(m, b, h, k, leastAddr, X, Y, lo, p)
    ensures Core(m, b, h, leastAddr) && TagsOk(m, h) && Binned(b) <= h.C.Keys && lo !in Binned(b) && p !in Binned(b)
    ensures lo != h.top && p != h.top && p != k.dv && k.top == h.top && MarksOk(h, k) && p !in k.Held() + X + Y
    ensures 0 !in h.C && k.Held() + X + Y <= h.C.Keys && lo >= HEAP_MIN && (lo == p ==> lo != k.dv)
    ensures lo + MIN_CHUNK_SIZE <= p + h.C[p]
    ensures (k.dv != 0 ==> k.dv != k.top) && k.dv !in X + Y && k.top !in X + Y
  {
    hide BinsOk, Binned, RegionOk, BackOk, FootOk, Apart;
    assert k.Held() + (X + Y) == Spare(b, h);
    ChunkFacts(m, h, p);
    ChunkFacts(m, h, lo);
    assert lo != p ==> lo in k.Held() + (X + Y);
    assert p != h.top;
    if lo == h.top && lo != p { TopEnds(m, h, lo); }
  }

  lemma TopEnds(m: Mem, h: Shape, lo: int)
    requires TagsOk(m, h) && lo in h.C && lo == h.top
    ensures lo + h.C[lo] !in h.C
  {
  }

  /** The run of lo and p. */
  lemma FrontRun(m: Mem, b: BinState, h: Shape, k: Marks, leastAddr: int, X: set<int>, Y: set<int>, lo: int, p: int)
    requires Front(m, b, h, k, leastAddr, X, Y, lo, p)
    ensures var n := p + h.C[p];
      && Run(b, h, lo, n) && !(lo <= h.top < n)
      && (forall q | q in h.C && lo <= q < n :: q == lo || q == p)
      && UsedIn(h, lo, n) == {p}
  {
    hide Core, Binned, Run, HeapOk, Spare, MarksOk, ChunkOk, RegionOk, BinsOk, IsEnd;
    FrontSpare(m, b, h, k, leastAddr, X, Y, lo, p);
    if lo == p { RunOfOne(m, b, h, p); } else { RunOfTwo(m, b, h, lo, p); }
    ChunkFacts(m, h, p);
    ChunkFacts(m, h, lo);
    hide TagsOk;
    assert Apart(h.C) by { ApartOf(m, h); }
    assert h.U <= h.C.Keys && (h.top != 0 ==> h.top in h.C) by { ApartOf(m, h); }
  }

  lemma ApartOf(m: Mem, h: Shape)
    requires TagsOk(m, h)
    ensures Apart(h.C) && h.U <= h.C.Keys && (h.top != 0 ==> h.top in h.C) && 0 !in h.C
  {
  }

  /** The run of lo, p and the spare chunk behind p. */
  lemma LongRun(m: Mem, b: BinState, h: Shape, k: Marks, leastAddr: int, X: set<int>, Y: set<int>,
                lo: int, p: int, n: int)
    requires Front(m, b, h, k, leastAddr, X, Y, lo, p) && n == p + h.C[p] && n !in h.U && n !in Binned(b)
    ensures n in h.C
    ensures var hi := n + h.C[n];
      && Run(b, h, lo, hi) && hi > n
      && (forall q | q in h.C && lo <= q < hi :: q == lo || q == p || q == n)
      && UsedIn(h, lo, hi) == {p}
  {
    hide Core, Binned, Run, HeapOk, Spare, MarksOk, TagsOk, Head, ChunkSize, Pinuse, Cinuse, IsInuse, IsMmapped;
    FrontSpare(m, b, h, k, leastAddr, X, Y, lo, p);
    if lo == p { RunOfTwo(m, b, h, p, n); } else { RunOfThree(m, b, h, lo, p, n); }
    HeadFacts(m, h, p);
    HeadFacts(m, h, lo);
    HeadFacts(m, h, n);
    ApartOf(m, h);
  }

  /** dv and top when a run becomes one free chunk. */
  lemma MarksFree(b: BinState, h: Shape, k: Marks, lo: int, hi: int)
    requires MarksOk(h, k) && Run(b, h, lo, hi) && 0 !in h.C && lo > 0
    ensures !(lo <= k.dv < hi) && !(lo <= k.top < hi) ==> MarksOk(One(h, lo, hi, false), k)
    ensures lo <= k.dv < hi && !(lo <= k.top < hi) ==>
      MarksOk(One(h, lo, hi, false), k.(dv := lo, dvsize := hi - lo))
    ensures lo <= k.top < hi && !(lo <= k.dv < hi) ==> MarksOk(One(h, lo, hi, false), k.(top := lo, topsize := hi - lo))
    ensures lo <= k.top < hi && lo <= k.dv < hi ==> MarksOk(One(h, lo, hi, false), Marks(0, 0, lo, hi - lo))
  {
    hide Binned;
  }

  /** Behind p comes a chunk in use. */
  lemma FreeBeforeUsed(m: Mem, m': Mem, b: BinState, h: Shape, k: Marks, leastAddr: int, X: set<int>, lo: int, p: int)
    requires Front(m, b, h, k, leastAddr, X, {}, lo, p) && p + h.C[p] in h.U
    requires var n := p + h.C[p]; m' == SetFreeWithPinuse(m, lo, n - lo, n)
    ensures var n := p + h.C[p]; var h' := One(h, lo, n, false);
      && (if lo == k.dv then HeapOk(m', b, h', k.(dvsize := n - lo), leastAddr, {})
         else HeapOk(m', b, h', k, leastAddr, {lo}))
      && Tame(m, h, m', h', {p})
  {
    hide Core, Run, One, Tail, Spare, MarksOk, Binned, UsedIn, Tame, OneTags, TagsOk, Head, HeapOk,
      Pinuse, WithoutPinuse;
    var n := p + h.C[p];
    FrontSpare(m, b, h, k, leastAddr, X, {}, lo, p);
    FrontRun(m, b, h, k, leastAddr, X, {}, lo, p);
    OneFree(m, m', b, h, lo, n, leastAddr);
    MarksFree(b, h, k, lo, n);
    assert Outside(k.Held() + (X + {}), lo, n) == k.Held() + X - {lo};
    if lo == k.dv {
      OneHeap(m, m', b, h, k, leastAddr, X + {}, lo, n, false, k.(dvsize := n - lo), {});
    } else {
      OneHeap(m, m', b, h, k, leastAddr, X + {}, lo, n, false, k, {lo});
    }
  }

  /** Behind p comes top: the chunk joins it. */
  lemma FreeIntoTop(m: Mem, m': Mem, b: BinState, h: Shape, k: Marks, leastAddr: int, X: set<int>, lo: int, p: int)
    requires Front(m, b, h, k, leastAddr, X, {}, lo, p) && p + h.C[p] == h.top
    requires m' == SetTopHead(m, lo, h.top - lo + h.C[h.top])
    ensures h.top in h.C
    ensures var s := h.top - lo + h.C[h.top]; var h' := One(h, lo, lo + s, false);
      && HeapOk(m', b, h', if lo == k.dv then Marks(0, 0, lo, s) else k.(top := lo, topsize := s), leastAddr, {})
      && Tame(m, h, m', h', {p})
  {
    hide Core, Run, One, Tail, Spare, MarksOk, Binned, UsedIn, Tame, OneTags, TagsOk, Head, HeapOk, Pinuse;
    var n := p + h.C[p];
    FrontSpare(m, b, h, k, leastAddr, X, {}, lo, p);
    assert n !in h.U && n !in Binned(b) by { TopFree(m, b, h, leastAddr); }
    LongRun(m, b, h, k, leastAddr, X, {}, lo, p, n);
    var hi := n + h.C[n];
    OneTop(m, m', b, h, lo, hi, leastAddr);
    MarksFree(b, h, k, lo, hi);
    assert Outside(k.Held() + (X + {}), lo, hi) == k.Held() + X - {lo, n};
    var k' := if lo == k.dv then Marks(0, 0, lo, hi - lo) else k.(top := lo, topsize := hi - lo);
    InFront(h, k, X, lo, p);
    assert lo <= k.dv < hi <==> lo == k.dv by { DvInRun(m, h, k, lo, p, n); }
    OneHeap(m, m', b, h, k, leastAddr, X + {}, lo, hi, false, k', {});
  }

  lemma InFront(h: Shape, k: Marks, X: set<int>, lo: int, p: int)
    requires FrontOk(h, k, X, lo, p)
    ensures X <= {lo} && (lo == k.dv && lo != p ==> X == {})
  {
  }

  lemma DvInRun(m: Mem, h: Shape, k: Marks, lo: int, p: int, n: int)
    requires MarksOk(h, k) && TagsOk(m, h) && lo in h.C && lo > 0 && k.dv != p && k.dv != n && n in h.C
    requires forall q | q in h.C && lo <= q < n + h.C[n] :: q == lo || q == p || q == n
    ensures lo <= k.dv < n + h.C[n] ==> lo == k.dv
    ensures lo < n ==> lo < n + h.C[n]
  {
    hide ChunkOk, RegionOk;
    ChunkFacts(m, h, n);
  }

  lemma TopFree(m: Mem, b: BinState, h: Shape, leastAddr: int)
    requires Core(m, b, h, leastAddr) && h.top != 0
    ensures h.top in h.C && h.top !in h.U && h.top !in Binned(b)
  {
    hide BinsOk, Binned;
  }

  /** Behind p comes dv: it grows to the front. */
  lemma FreeIntoDv(m: Mem, m': Mem, b: BinState, h: Shape, k: Marks, leastAddr: int, X: set<int>, lo: int, p: int)
    requires Front(m, b, h, k, leastAddr, X, {}, lo, p) && p + h.C[p] == k.dv
    requires m' == SetSizeFree(m, lo, k.dv - lo + k.dvsize)
    ensures var s := k.dv - lo + k.dvsize; var h' := One(h, lo, lo + s, false);
      && HeapOk(m', b, h', k.(dv := lo, dvsize := s), leastAddr, {}) && Tame(m, h, m', h', {p})
  {
    hide Core, Run, One, Tail, Spare, MarksOk, Binned, UsedIn, Tame, OneTags, TagsOk, Head, HeapOk,
      Pinuse, WithoutPinuse;
    var n := p + h.C[p];
    FrontSpare(m, b, h, k, leastAddr, X, {}, lo, p);
    DvFacts(m, b, h, k, leastAddr, X + {});
    LongRun(m, b, h, k, leastAddr, X, {}, lo, p, n);
    var hi := n + h.C[n];
    OneFree(m, m', b, h, lo, hi, leastAddr);
    MarksFree(b, h, k, lo, hi);
    assert Outside(k.Held() + (X + {}), lo, hi) == k.Held() + X - {lo, n};
    InFront(h, k, X, lo, p);
    OneHeap(m, m', b, h, k, leastAddr, X + {}, lo, hi, false, k.(dv := lo, dvsize := hi - lo), {});
  }

  /** What follows a spare chunk. */
  lemma DvFacts(m: Mem, b: BinState, h: Shape, k: Marks, leastAddr: int, X: set<int>)
    requires HeapOk(m, b, h, k, leastAddr, X) && k.dv != 0
    ensures k.dv in h.C && k.dv !in h.U && k.dv !in Binned(b) && k.dvsize == h.C[k.dv] && k.dv != h.top
    ensures var n := k.dv + h.C[k.dv];
      n in h.C && n in h.U && !Pinuse(Rd(m, n + 8)) && WithoutPinuse(Rd(m, n + 8)) == Rd(m, n + 8)
  {
    hide Core, Binned, Spare, Run;
    SpareFacts(m, b, h, k, leastAddr, X, k.dv);
    BehindSpare(m, h, k.dv);
  }

  lemma BehindSpare(m: Mem, h: Shape, p: int)
    requires TagsOk(m, h) && p in h.C && p !in h.U
    ensures var n := p + h.C[p]; !Pinuse(Rd(m, n + 8)) && WithoutPinuse(Rd(m, n + 8)) == Rd(m, n + 8)
  {
    ChunkFacts(m, h, p);
  }

  /** Behind p comes a free chunk that was just taken out of its bin. */
  lemma FreeWithNext(m: Mem, m': Mem, b: BinState, h: Shape, k: Marks, leastAddr: int, X: set<int>,
                     lo: int, p: int, n: int)
    requires Front(m, b, h, k, leastAddr, X, {n}, lo, p) && n == p + h.C[p]
    requires n in h.C && m' == SetSizeFree(m, lo, n - lo + h.C[n])
    ensures var s := n - lo + h.C[n]; var h' := One(h, lo, lo + s, false);
      && (if lo == k.dv then HeapOk(m', b, h', k.(dvsize := s), leastAddr, {})
         else HeapOk(m', b, h', k, leastAddr, {lo}))
      && Tame(m, h, m', h', {p})
  {
    hide Core, Run, One, Tail, Spare, MarksOk, Binned, UsedIn, Tame, OneTags, TagsOk, Head, HeapOk,
      Pinuse, WithoutPinuse;
    FrontSpare(m, b, h, k, leastAddr, X, {n}, lo, p);
    SpareFacts(m, b, h, k, leastAddr, X + {n}, n);
    BehindSpare(m, h, n);
    LongRun(m, b, h, k, leastAddr, X, {n}, lo, p, n);
    var hi := n + h.C[n];
    OneFree(m, m', b, h, lo, hi, leastAddr);
    MarksFree(b, h, k, lo, hi);
    assert Outside(k.Held() + (X + {n}), lo, hi) == k.Held() + X - {lo, n};
    InFront(h, k, X, lo, p);
    if lo == k.dv {
      OneHeap(m, m', b, h, k, leastAddr, X + {n}, lo, hi, false, k.(dvsize := hi - lo), {});
    } else {
      assert !(lo <= k.dv < hi) by { DvInRun(m, h, k, lo, p, n); }
      OneHeap(m, m', b, h, k, leastAddr, X + {n}, lo, hi, false, k, {lo});
    }
  }

  // ---------------------------------------------------------------------------------------
  // The neighbours, as their tags tell

  /** A chunk a program may free: not one of those that hold segment records at the end of a region. */
  predicate Owned(h: Shape, p: int) {
    p in h.C && p in h.U && p + h.C[p] in h.C
  }

  /** The chunk before p. */
  lemma Before(m: Mem, b: BinState, h: Shape, k: Marks, leastAddr: int, p: int)
    requires HeapOk(m, b, h, k, leastAddr, {}) && p in h.C && p in h.U
    ensures !Pinuse(Rd(m, p + 8)) ==>
      var lo := p - Rd(m, p);
      && lo in h.C && lo !in h.U && lo != h.top && h.C[lo] == Rd(m, p) && lo < p && Joint(h, lo, p)
      && lo >= leastAddr && lo >= HEAP_MIN && Pinuse(Rd(m, lo + 8)) && (lo != k.dv ==> lo in Binned(b))
    ensures Pinuse(Rd(m, p + 8)) ==> forall q | q in h.C && q + h.C[q] == p :: q in h.U
    ensures ChunkSize(Rd(m, p + 8)) == h.C[p] && Cinuse(Rd(m, p + 8)) && p >= leastAddr && h.C[p] > 0 && p >= HEAP_MIN
    ensures IsInuse(Rd(m, p + 8)) && !IsMmapped(Rd(m, p + 8))
  {
    hide BinsOk, Binned, TagsOk, MarksOk, HeadOk, Head, ChunkSize, Pinuse, Cinuse, IsInuse, IsMmapped, Spare;
    HeadFacts(m, h, p);
    BehindKind(m, b, h, k, leastAddr, {}, p);
    if !Pinuse(Rd(m, p + 8)) {
      PreviousFree(m, h, p);
      var lo := p - Rd(m, p);
      HeadFacts(m, h, lo);
      BehindKind(m, b, h, k, leastAddr, {}, lo);
    } else {
      forall q | q in h.C && q + h.C[q] == p ensures q in h.U {
        FootFacts(m, h, q);
      }
    }
  }

  lemma PreviousFree(m: Mem, h: Shape, p: int)
    requires TagsOk(m, h) && p in h.C && !Pinuse(Rd(m, p + 8))
    ensures var q := p - Rd(m, p); q in h.C && q !in h.U && q != h.top && h.C[q] == Rd(m, p)
  {
    hide HeadOk, FootOk, RegionOk, Apart;
    ChunkFacts(m, h, p);
  }

  /** The chunk behind p. */
  lemma Behind(m: Mem, b: BinState, h: Shape, k: Marks, leastAddr: int, X: set<int>, lo: int, p: int)
    requires Front(m, b, h, k, leastAddr, X, {}, lo, p)
    ensures var n := p + h.C[p];
      && n in h.C && n >= leastAddr && n > p && Pinuse(Rd(m, n + 8)) && ChunkSize(Rd(m, n + 8)) == h.C[n]
      && (n in h.U <==> Cinuse(Rd(m, n + 8))) && (Rd(m, n + 8) % 4 == 3 <==> n in h.U)
      && (n == k.top <==> n == h.top) && (n == h.top ==> n !in h.U && k.topsize == h.C[n])
      && (n == k.dv ==> n !in h.U && k.dvsize == h.C[n])
      && (n !in h.U && n != h.top && n != k.dv ==> n in Binned(b))
  {
    hide BinsOk, Binned, TagsOk, MarksOk, HeadOk, Head, ChunkSize, Pinuse, Cinuse, HeapOk, Spare, FrontOk;
    FrontSpare(m, b, h, k, leastAddr, X, {}, lo, p);
    var n := p + h.C[p];
    HeadFacts(m, h, p);
    FootFacts(m, h, p);
    HeadFacts(m, h, n);
    InFront(h, k, X, lo, p);
    BehindKind(m, b, h, k, leastAddr, X + {}, n);
    if lo != p { HeadFacts(m, h, lo); JointIs(h, k, X, lo, p); }
  }

  lemma JointIs(h: Shape, k: Marks, X: set<int>, lo: int, p: int)
    requires FrontOk(h, k, X, lo, p) && lo != p
    ensures lo in h.C && lo + h.C[lo] == p
  {
  }

  /** Where a free chunk is. */
  lemma BehindKind(m: Mem, b: BinState, h: Shape, k: Marks, leastAddr: int, X: set<int>, n: int)
    requires HeapOk(m, b, h, k, leastAddr, X) && n in h.C && n !in X
    ensures n >= leastAddr && k.top == h.top && (n == h.top ==> n !in h.U && k.topsize == h.C[n])
    ensures n == k.dv ==> n !in h.U && k.dvsize == h.C[n] && k.dv != k.top
    ensures n !in h.U && n != h.top && n != k.dv ==> n in Binned(b)
  {
    hide BinsOk, Binned, ChunkOk, RegionOk, Apart;
    assert n !in Spare(b, h) || n in k.Held() + X;
  }

  lemma FrontHeap(m: Mem, b: BinState, h: Shape, k: Marks, leastAddr: int, X: set<int>, lo: int, p: int)
    requires Front(m, b, h, k, leastAddr, X, {}, lo, p)
    ensures HeapOk(m, b, h, k, leastAddr, X + {}) && Core(m, b, h, leastAddr)
  {
    hide Core, Spare;
  }

  /** The front is still there after a chunk behind it was taken out of its bin. */
  lemma FrontStays(m: Mem, m': Mem, b: BinState, b': BinState, h: Shape, k: Marks, leastAddr: int, X: set<int>,
                   lo: int, p: int, n: int)
    requires Front(m, b, h, k, leastAddr, X, {}, lo, p) && HeapOk(m', b', h, k, leastAddr, X + {} + {n})
      && HeadsKept(m, m', h)
    ensures Front(m', b', h, k, leastAddr, X, {n}, lo, p)
  {
    hide HeapOk, Pinuse, FrontOk;
    assert X + {} + {n} == X + {n};
  }
}
