/** Serving a request from a free chunk: the chunk is used whole, or cut in two (malloc.c, the ends of
    tmalloc_large, tmalloc_small and dlmalloc). */
module Carving {
  import opened ChunkMemory
  import opened TreeState
  import opened AllBins
  import opened Chunks
  import opened HeapState
  import opened Recuts
  import opened TagWrites
  import opened HeapInvariant
  import opened HeapBins

  /** p is a new chunk for a request of nb bytes, cut from free space; nothing else is in use that was
      not before. */
  ghost predicate Served(m: Mem, h: Shape, m': Mem, h': Shape, p: int, nb: int) {
    && p in h.C && p !in h.U && p in h'.C && h'.U == h.U + {p}
    && nb <= h'.C[p] < nb + MIN_CHUNK_SIZE && h'.C[p] <= h.C[p]
    && p % 16 == 0 && Rd(m', p + 8) == Head(h'.C[p], true, true) && p + h'.C[p] in h'.C
    && Tame(m, h, m', h', {})
  }

  // ---------------------------------------------------------------------------------------
  // Sets of spare chunks

  lemma OutsideOne(m: Mem, h: Shape, S: set<int>, p: int)
    requires TagsOk(m, h) && S <= h.C.Keys && p in h.C
    ensures Outside(S, p, p + h.C[p]) == S - {p}
  {
    hide ChunkOk, RegionOk;
    ChunkFacts(m, h, p);
  }

  lemma UsedInFree(m: Mem, h: Shape, p: int)
    requires TagsOk(m, h) && p in h.C && p !in h.U
    ensures UsedIn(h, p, p + h.C[p]) == {}
  {
    hide ChunkOk, RegionOk;
  }

  /** Where a spare chunk is. */
  lemma SpareFacts(m: Mem, b: BinState, h: Shape, k: Marks, leastAddr: int, X: set<int>, p: int)
    requires HeapOk(m, b, h, k, leastAddr, X) && p in k.Held() + X
    ensures p in h.C && p !in h.U && p !in Binned(b) && Binned(b) <= h.C.Keys && k.Held() + X <= h.C.Keys
    ensures Core(m, b, h, leastAddr) && TagsOk(m, h) && Pinuse(Rd(m, p + 8))
      && Rd(m, p + 8) == Head(h.C[p], true, false)
    ensures h.C[p] % 8 == 0 && p % 16 == 0 && h.C[p] >= 8
    ensures p != h.top ==> h.C[p] >= MIN_CHUNK_SIZE && h.C[p] % 16 == 0
    ensures Run(b, h, p, p + h.C[p])
    ensures var n := p + h.C[p]; if p == h.top then n !in h.C else n in h.C && n in h.U && n != h.top
  {
    hide BinsOk, Binned, Run, BackOk, FootOk, RegionOk, Apart;
    assert p in Spare(b, h);
    ChunkFacts(m, h, p);
    NextFacts(m, h, p);
    RunOfOne(m, b, h, p);
    assert k.Held() + X <= h.C.Keys by { hide HeadOk, TagsOk; }
  }

  // ---------------------------------------------------------------------------------------
  // dv and top after a recut

  lemma MarksOne(b: BinState, h: Shape, k: Marks, lo: int, hi: int, used: bool)
    requires MarksOk(h, k) && Run(b, h, lo, hi) && !(lo <= k.top < hi) && 0 !in h.C
    ensures MarksOk(One(h, lo, hi, used), if lo <= k.dv < hi then k.(dv := 0, dvsize := 0) else k)
  {
    hide Binned;
  }

  lemma MarksTwo(b: BinState, h: Shape, k: Marks, lo: int, mid: int, hi: int, used: bool)
    requires MarksOk(h, k) && Run(b, h, lo, hi) && 0 < lo < mid < hi && !(lo <= k.top < hi) && 0 !in h.C
    ensures MarksOk(Two(h, lo, mid, hi, used), if lo <= k.dv < hi then k.(dv := 0, dvsize := 0) else k)
    ensures !used && (lo <= k.dv < hi || k.dv == 0) ==>
      MarksOk(Two(h, lo, mid, hi, used), k.(dv := mid, dvsize := hi - mid))
  {
    hide Binned;
  }

  /** dv and top are chunks, so another chunk does not contain them. */
  lemma MarksOutside(m: Mem, b: BinState, h: Shape, k: Marks, leastAddr: int, X: set<int>, p: int)
    requires HeapOk(m, b, h, k, leastAddr, X) && p in h.C
    ensures 0 !in h.C && k.top == h.top && p >= HEAP_MIN
    ensures p <= k.dv < p + h.C[p] ==> k.dv == p
    ensures p <= k.top < p + h.C[p] ==> k.top == p
    ensures MarksOk(h, k) && k.dv !in X && k.top !in X && 0 !in X && (k.dv != 0 ==> k.dv != k.top)
  {
    hide BinsOk, ChunkOk, RegionOk;
  }

  // ---------------------------------------------------------------------------------------
  // The three ways to serve a request

  /** The whole of a free chunk, as set_inuse_and_pinuse marks it. */
  lemma TakeWhole(m: Mem, b: BinState, h: Shape, k: Marks, leastAddr: int, X: set<int>, p: int)
    requires HeapOk(m, b, h, k, leastAddr, X) && p in k.Held() + X && p != h.top
    ensures p in h.C && p + h.C[p] in h.C
    ensures var m' := SetInuseAndPinuse(m, p, h.C[p]);
      var h' := One(h, p, p + h.C[p], true);
      && HeapOk(m', b, h', if p == k.dv then k.(dv := 0, dvsize := 0) else k, leastAddr, X - {p})
      && Tame(m, h, m', h', {}) && Rd(m', p + 8) == Head(h.C[p], true, true)
  {
    hide Core, Run, One, Tail, Spare, MarksOk, Binned, UsedIn, Outside, Tame, OneTags, TagsOk, Head;
    SpareFacts(m, b, h, k, leastAddr, X, p);
    MarksOutside(m, b, h, k, leastAddr, X, p);
    var hi := p + h.C[p];
    var m' := SetInuseAndPinuse(m, p, h.C[p]);
    OneUsed(m, m', b, h, p, hi, leastAddr);
    OutsideOne(m, h, k.Held() + X, p);
    UsedInFree(m, h, p);
    MarksOne(b, h, k, p, hi, true);
    OneHeap(m, m', b, h, k, leastAddr, X, p, hi, true, if p == k.dv then k.(dv := 0, dvsize := 0) else k, X - {p});
  }

  /** The tags of a free chunk of s bytes at p that is cut behind nb bytes. */
  ghost predicate CutWrites(m: Mem, m': Mem, p: int, nb: int, s: int) {
    && Only(m, m', {p + 8, p + nb + 8, p + s})
    && Rd(m', p + 8) == Head(nb, true, true) && Rd(m', p + nb + 8) == Head(s - nb, true, false)
    && Rd(m', p + s) == s - nb
  }

  lemma CutBothWays(m: Mem, p: int, nb: int, s: int)
    requires 0 < nb < s && s - nb >= MIN_CHUNK_SIZE
    ensures CutWrites(m, SetSizeFree(SetSizeInuse(m, p, nb), p + nb, s - nb), p, nb, s)
    ensures CutWrites(m, SetSizeInuse(SetSizeFree(m, p + nb, s - nb), p, nb), p, nb, s)
  {
    hide Head;
  }

  /** Inside a chunk no other chunk starts. */
  lemma FreshStart(m: Mem, b: BinState, h: Shape, k: Marks, leastAddr: int, X: set<int>, p: int, mid: int)
    requires HeapOk(m, b, h, k, leastAddr, X) && p in h.C && p < mid < p + h.C[p]
    ensures mid !in h.C && mid !in k.Held() + X
  {
    hide BinsOk, ChunkOk, RegionOk, Binned;
    assert mid !in h.C;
    assert k.Held() + X == Spare(b, h);
  }

  lemma SplitTags(m: Mem, m': Mem, b: BinState, h: Shape, leastAddr: int, p: int, nb: int)
    requires Core(m, b, h, leastAddr) && TagsOk(m, h) && p in h.C && p !in h.U && p != h.top && Run(b, h, p, p + h.C[p])
    requires var n := p + h.C[p]; n in h.C && n in h.U && n != h.top
    requires p % 16 == 0 && nb % 16 == 0 && MIN_CHUNK_SIZE <= nb && nb + MIN_CHUNK_SIZE <= h.C[p]
    requires !(p <= h.top < p + h.C[p]) && Pinuse(Rd(m, p + 8)) && CutWrites(m, m', p, nb, h.C[p])
    ensures TwoTags(m, m', b, h, p, p + nb, p + h.C[p], false)
  {
    hide Core, Run, Two, Tail, Binned, TwoTags, Head, TagsOk;
    var n := p + h.C[p];
    FootFacts(m, h, p);
    AddSixteens(p, nb);
    TwoFree(m, m', b, h, p, p + nb, n, leastAddr);
  }

  lemma AddSixteens(p: int, nb: int)
    requires p % 16 == 0 && nb % 16 == 0
    ensures (p + nb) % 16 == 0
  {
  }

  /** A free chunk other than top is cut: nb bytes in use; the rest is dv, if the chunk was, or else a
      chunk to be binned. */
  lemma SplitFree(m: Mem, m': Mem, b: BinState, h: Shape, k: Marks, leastAddr: int, X: set<int>, p: int, nb: int)
    requires HeapOk(m, b, h, k, leastAddr, X) && p in k.Held() + X && p != h.top && p in h.C
    requires nb % 16 == 0 && MIN_CHUNK_SIZE <= nb && nb + MIN_CHUNK_SIZE <= h.C[p]
    requires CutWrites(m, m', p, nb, h.C[p])
    ensures var h' := Two(h, p, p + nb, p + h.C[p], false);
      && (if p == k.dv then HeapOk(m', b, h', k.(dv := p + nb, dvsize := h.C[p] - nb), leastAddr, X)
          else HeapOk(m', b, h', k, leastAddr, X - {p} + {p + nb}))
      && Tame(m, h, m', h', {}) && p + nb in h'.C
  {
    hide Core, Run, Two, Tail, Spare, MarksOk, Binned, UsedIn, Outside, Tame, TwoTags, TagsOk, Head, CutWrites;
    SpareFacts(m, b, h, k, leastAddr, X, p);
    MarksOutside(m, b, h, k, leastAddr, X, p);
    var mid, hi := p + nb, p + h.C[p];
    SplitTags(m, m', b, h, leastAddr, p, nb);
    OutsideOne(m, h, k.Held() + X, p);
    UsedInFree(m, h, p);
    MarksTwo(b, h, k, p, mid, hi, false);
    FreshStart(m, b, h, k, leastAddr, X, p, mid);
    TwoShape(h, p, mid, hi, false);
    if p == k.dv {
      TwoHeap(m, m', b, h, k, leastAddr, X, p, mid, hi, false, k.(dv := mid, dvsize := hi - mid), X);
    } else {
      TwoHeap(m, m', b, h, k, leastAddr, X, p, mid, hi, false, k, X - {p} + {mid});
    }
  }

  /** Top is cut. */
  lemma SplitTop(m: Mem, m': Mem, b: BinState, h: Shape, k: Marks, leastAddr: int, nb: int)
    requires HeapOk(m, b, h, k, leastAddr, {}) && nb % 16 == 0 && MIN_CHUNK_SIZE <= nb < k.topsize
    requires m' == SetSizeInuse(SetTopHead(m, k.top + nb, k.topsize - nb), k.top, nb)
    ensures h.top in h.C && k.top == h.top
    ensures var h' := Two(h, h.top, h.top + nb, h.top + h.C[h.top], false);
      && HeapOk(m', b, h', k.(top := k.top + nb, topsize := k.topsize - nb), leastAddr, {})
      && Tame(m, h, m', h', {}) && k.top + nb in h'.C && Rd(m', k.top + 8) == Head(nb, true, true)
  {
    hide Core, Tail, Spare, Binned, UsedIn, Outside, Tame, TwoTags, TagsOk, Head, Pinuse;
    var p := h.top;
    TopHeld(m, b, h, k, leastAddr);
    SpareFacts(m, b, h, k, leastAddr, {}, p);
    MarksOutside(m, b, h, k, leastAddr, {}, p);
    var mid, hi := p + nb, p + h.C[p];
    AddSixteens(p, nb);
    TwoTop(m, m', b, h, p, mid, hi, leastAddr);
    OutsideOne(m, h, k.Held() + {}, p);
    UsedInFree(m, h, p);
    FreshStart(m, b, h, k, leastAddr, {}, p, mid);
    TwoShape(h, p, mid, hi, false);
    assert k.(top := mid, topsize := hi - mid).Held() + {} == (k.Held() + {}) - {p} + {mid};
    hide MarksOk;
    TwoHeap(m, m', b, h, k, leastAddr, {}, p, mid, hi, false, k.(top := mid, topsize := hi - mid), {});
  }

  lemma TopHeld(m: Mem, b: BinState, h: Shape, k: Marks, leastAddr: int)
    requires HeapOk(m, b, h, k, leastAddr, {}) && k.topsize > 0
    ensures h.top in h.C && k.top == h.top && k.topsize == h.C[h.top] && h.top in k.Held()
  {
    hide BinsOk, ChunkOk, RegionOk, Binned;
  }

  // ---------------------------------------------------------------------------------------
  // Spare chunks come and go

  /** After insert_chunk. */
  lemma Stored(m: Mem, m': Mem, b: BinState, b': BinState, h: Shape, k: Marks, leastAddr: int, X: set<int>, p: int)
    requires HeapOk(m, b, h, k, leastAddr, X) && p in X && Core(m', b', h, leastAddr) && Binned(b') == Binned(b) + {p}
    ensures HeapOk(m', b', h, k, leastAddr, X - {p})
  {
    hide Core, Binned;
    assert Spare(b', h) == Spare(b, h) - {p};
  }

  /** After unlink_chunk. */
  lemma Fetched(m: Mem, m': Mem, b: BinState, b': BinState, h: Shape, k: Marks, leastAddr: int, X: set<int>, p: int)
    requires HeapOk(m, b, h, k, leastAddr, X) && p in Binned(b) && Core(m', b', h, leastAddr)
      && Binned(b') == Binned(b) - {p}
    ensures HeapOk(m', b', h, k, leastAddr, X + {p}) && p !in X && p != k.dv && p != k.top && p != h.top && p in h.C
  {
    hide TagsOk, BinsOk, Binned;
    assert p in Free(h);
    assert Spare(b', h) == Spare(b, h) + {p};
    assert p !in k.Held() + X;
    MarksOutside(m, b, h, k, leastAddr, X, p);
  }

  /** A spare chunk other than top may be binned. */
  lemma MayBeBinned(m: Mem, b: BinState, h: Shape, k: Marks, leastAddr: int, X: set<int>, p: int)
    requires HeapOk(m, b, h, k, leastAddr, X) && (p in X || (p == k.dv && p != 0))
    ensures Core(m, b, h, leastAddr) && Binnable(b, h, p) && p in h.C && h.C[p] >= MIN_CHUNK_SIZE
  {
    hide Core, Binned;
    SpareFacts(m, b, h, k, leastAddr, X, p);
  }

  /** replace_dv, seen from the spare chunks. */
  lemma DvReleased(m: Mem, b: BinState, h: Shape, k: Marks, leastAddr: int, X: set<int>)
    requires HeapOk(m, b, h, k, leastAddr, X) && k.dv != 0
    ensures HeapOk(m, b, h, k.(dv := 0, dvsize := 0), leastAddr, X + {k.dv})
  {
    hide Core, Spare;
  }

  lemma DvAdopted(m: Mem, b: BinState, h: Shape, k: Marks, leastAddr: int, X: set<int>, p: int)
    requires HeapOk(m, b, h, k, leastAddr, X) && k.dv == 0 && p in X
    ensures p in h.C && HeapOk(m, b, h, k.(dv := p, dvsize := h.C[p]), leastAddr, X - {p})
  {
    hide Core, Spare;
    SpareFacts(m, b, h, k, leastAddr, X, p);
  }

  // ---------------------------------------------------------------------------------------
  // The chunk a request gets

  lemma ServedWhole(m: Mem, h: Shape, m': Mem, p: int, nb: int)
    requires TagsOk(m, h) && p in h.C && p !in h.U && p % 16 == 0 && nb <= h.C[p] < nb + MIN_CHUNK_SIZE
      && p + h.C[p] in h.C
    requires 0 < h.C[p]
    requires var h' := One(h, p, p + h.C[p], true);
      Tame(m, h, m', h', {}) && Rd(m', p + 8) == Head(h.C[p], true, true)
    ensures Served(m, h, m', One(h, p, p + h.C[p], true), p, nb)
  {
    hide Tame, Head, ChunkOk, RegionOk;
    var h' := One(h, p, p + h.C[p], true);
    assert h'.U == h.U + {p};
  }

  lemma ServedPart(m: Mem, h: Shape, m': Mem, p: int, nb: int)
    requires TagsOk(m, h) && p in h.C && p !in h.U && p % 16 == 0 && 0 < nb < h.C[p]
    requires var h' := Two(h, p, p + nb, p + h.C[p], false);
      Tame(m, h, m', h', {}) && Rd(m', p + 8) == Head(nb, true, true)
    ensures Served(m, h, m', Two(h, p, p + nb, p + h.C[p], false), p, nb)
  {
    hide Tame, Head, ChunkOk, RegionOk;
    var h' := Two(h, p, p + nb, p + h.C[p], false);
    assert h'.U == h.U + {p};
  }

  /** Bin operations before and after cutting the chunk do not matter to the program. */
  lemma ServedAround(m0: Mem, m1: Mem, h: Shape, m2: Mem, m3: Mem, h': Shape, p: int, nb: int)
    requires Tame(m0, h, m1, h, {}) && Served(m1, h, m2, h', p, nb)
    requires Tame(m2, h', m3, h', {}) && HeadsKept(m2, m3, h')
    ensures Served(m0, h, m3, h', p, nb)
  {
    hide Tame, Head;
    var none: set<int> := {};
    assert none + none == none;
    TameTwice(m0, h, m1, h, m2, h', none, none);
    TameTwice(m0, h, m2, h', m3, h', none, none);
  }

  lemma SizesOf(m: Mem, b: BinState, h: Shape, k: Marks, leastAddr: int, X: set<int>, p: int)
    requires HeapOk(m, b, h, k, leastAddr, X) && p in k.Held() + X
    ensures TagsOk(m, h) && p in h.C && p !in h.U && p % 16 == 0 && h.C[p] % 8 == 0 && h.C[p] > 0
    ensures p != h.top ==> p + h.C[p] in h.C
    ensures p in X ==> p != h.top && p != k.dv
  {
    hide Core, Binned, Spare, MarksOk;
    SpareFacts(m, b, h, k, leastAddr, X, p);
    MarksOutside(m, b, h, k, leastAddr, X, p);
  }
}
