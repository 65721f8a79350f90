/** Chunks in use that shrink, grow, split and join (malloc.c, try_realloc_chunk, internal_memalign and
    internal_bulk_free). */
module Resizing {
  import opened ChunkMemory
  import opened TreeState
  import opened AllBins
  import opened Chunks
  import opened HeapState
  import opened Recuts
  import opened TagWrites
  import opened HeapInvariant
  import opened Carving
  import opened Freeing

  /** The payload of the chunk p, as far as a chunk of s bytes has it, is the same. */
  ghost predicate Preserved(m: Mem, m': Mem, p: int, s: int) {
    forall a {:trigger Rd(m', a)} | p + 16 <= a < p + s + 8 :: Rd(m', a) == Rd(m, a)
  }

  lemma UsedFacts(m: Mem, b: BinState, h: Shape, k: Marks, leastAddr: int, X: set<int>, p: int)
    requires HeapOk(m, b, h, k, leastAddr, X) && p in h.C && p in h.U
    ensures Core(m, b, h, leastAddr) && TagsOk(m, h) && MarksOk(h, k) && k.top == h.top && Binned(b) <= h.C.Keys
    ensures p !in Binned(b) && p != h.top && p != k.dv && p !in k.Held() + X && p >= HEAP_MIN && p % 16 == 0
    ensures h.C[p] >= MIN_CHUNK_SIZE && h.C[p] % 16 == 0 && k.Held() + X <= h.C.Keys
    ensures Rd(m, p + 8) == Head(h.C[p], Pinuse(Rd(m, p + 8)), true)
    ensures 0 !in h.C && Apart(h.C) && h.U <= h.C.Keys && (h.top != 0 ==> h.top in h.C) && p >= leastAddr
    ensures (k.dv != 0 ==> k.dv != k.top) && k.dv !in X && k.top !in X && 0 !in X
  {
    hide BinsOk, Binned, RegionOk, BackOk, FootOk, Apart;
    assert k.Held() + X == Spare(b, h);
    ChunkFacts(m, h, p);
    ApartOf(m, h);
  }

  /** p alone. */
  lemma UsedRun(m: Mem, b: BinState, h: Shape, k: Marks, leastAddr: int, X: set<int>, p: int)
    requires HeapOk(m, b, h, k, leastAddr, X) && p in h.C && p in h.U
    ensures var n := p + h.C[p];
      && Run(b, h, p, n) && !(p <= h.top < n) && !(p <= k.dv < n)
      && UsedIn(h, p, n) == {p} && Outside(k.Held() + X, p, n) == k.Held() + X
  {
    hide Core, Binned, Run, HeapOk, Spare, ChunkOk, RegionOk, BinsOk, IsEnd;
    UsedFacts(m, b, h, k, leastAddr, X, p);
    RunOfOne(m, b, h, p);
    hide TagsOk;
  }

  /** p and the chunk behind it. */
  lemma PairRun(m: Mem, b: BinState, h: Shape, k: Marks, leastAddr: int, X: set<int>, p: int, n: int)
    requires HeapOk(m, b, h, k, leastAddr, X) && p in h.C && p in h.U && n == p + h.C[p] && n in h.C && n !in Binned(b)
    ensures var hi := n + h.C[n];
      && Run(b, h, p, hi) && hi > n && (p <= h.top < hi <==> h.top == n) && (p <= k.dv < hi <==> k.dv == n)
      && UsedIn(h, p, hi) == (if n in h.U then {p, n} else {p}) && Outside(k.Held() + X, p, hi) == k.Held() + X - {n}
      && (n !in h.U && n != h.top ==> hi in h.C && hi in h.U && !Pinuse(Rd(m, hi + 8)))
  {
    hide Core, Binned, Run, HeapOk, Spare, ChunkOk, RegionOk, BinsOk, IsEnd;
    UsedFacts(m, b, h, k, leastAddr, X, p);
    RunOfTwo(m, b, h, p, n);
    ChunkFacts(m, h, n);
    NextFacts(m, h, n);
    hide TagsOk, Pinuse;
    assert k.dv != 0 ==> k.dv in h.C;
    assert forall q | q in h.C && p <= q < n + h.C[n] :: q == p || q == n;
  }

  /** Where p is the only chunk in use of a run, it stays the only one. */
  lemma SameUsed(h: Shape, p: int, mid: int, hi: int)
    requires UsedIn(h, p, hi) == {p} && p < mid < hi
    ensures One(h, p, hi, true).U == h.U && Two(h, p, mid, hi, false).U == h.U
      && Two(h, p, mid, hi, true).U == h.U + {mid}
  {
    forall q | q in h.U && p <= q < hi ensures q == p { assert q in UsedIn(h, p, hi); }
    assert p in UsedIn(h, p, hi);
  }

  // ---------------------------------------------------------------------------------------
  // What set_inuse leaves behind

  /** The tags of two chunks in use, where there was one of nb + rsize bytes. */
  ghost predicate Splits(m: Mem, m': Mem, p: int, nb: int, rsize: int) {
    && Only(m, m', {p + 8, p + nb + 8, p + nb + rsize + 8})
    && Rd(m', p + 8) == Head(nb, Pinuse(Rd(m, p + 8)), true) && Rd(m', p + nb + 8) == Head(rsize, true, true)
    && Rd(m', p + nb + rsize + 8) == WithPinuse(Rd(m, p + nb + rsize + 8))
  }

  /** set_inuse for the front part and then for the rest. */
  lemma SplitWrites(m: Mem, p: int, nb: int, rsize: int)
    requires nb > 0 && rsize > 0 && nb % 16 == 0 && rsize % 16 == 0
    ensures var m' := SetInuse(SetInuse(m, p, nb), p + nb, rsize);
      Splits(m, m', p, nb, rsize) && Preserved(m, m', p, nb)
  {
    var m1 := SetInuse(m, p, nb);
    assert Rd(m1, p + nb + 8) == WithPinuse(Rd(m, p + nb + 8));
  }

  /** set_inuse for the rest and then for the front part. */
  lemma SplitWritesBack(m: Mem, p: int, nb: int, rsize: int)
    requires nb > 0 && rsize > 0 && nb % 16 == 0 && rsize % 16 == 0
    ensures Splits(m, SetInuse(SetInuse(m, p + nb, rsize), p, nb), p, nb, rsize)
  {
    var m1 := SetInuse(m, p + nb, rsize);
    assert Rd(m1, p + nb + 8) == Head(rsize, Pinuse(Rd(m, p + nb + 8)), true);
  }

  /** A chunk in use becomes two. */
  lemma SplitUsed(m: Mem, m': Mem, b: BinState, h: Shape, k: Marks, leastAddr: int, X: set<int>,
                  p: int, nb: int, rsize: int)
    requires HeapOk(m, b, h, k, leastAddr, X) && Owned(h, p) && h.C[p] == nb + rsize
    requires nb >= MIN_CHUNK_SIZE && rsize >= MIN_CHUNK_SIZE && nb % 16 == 0 && Splits(m, m', p, nb, rsize)
    ensures var h' := Two(h, p, p + nb, p + h.C[p], true);
      && HeapOk(m', b, h', k, leastAddr, X) && Tame(m, h, m', h', {p}) && Owned(h', p) && Owned(h', p + nb)
      && h'.C[p] == nb && h'.C[p + nb] == rsize
  {
    hide Core, Run, Tail, Spare, MarksOk, Binned, UsedIn, Outside, Tame, TwoTags, TagsOk, Head, Pinuse, WithPinuse,
      HeapOk;
    UsedFacts(m, b, h, k, leastAddr, X, p);
    UsedRun(m, b, h, k, leastAddr, X, p);
    var mid, hi := p + nb, p + h.C[p];
    Multiple(p, nb);
    TwoUsed(m, m', b, h, p, mid, hi, leastAddr);
    MarksTwo(b, h, k, p, mid, hi, true);
    TwoHeap(m, m', b, h, k, leastAddr, X, p, mid, hi, true, k, X);
    TwoShape(h, p, mid, hi, true);
  }

  lemma RestOf16(nb: int, rsize: int)
    requires nb % 16 == 0 && (nb + rsize) % 16 == 0
    ensures rsize % 16 == 0
  {
  }

  lemma Multiple(p: int, nb: int)
    requires p % 16 == 0 && nb % 16 == 0
    ensures (p + nb) % 16 == 0
  {
  }

  // ---------------------------------------------------------------------------------------
  // Growing

  /** A chunk in use grows into top. */
  lemma GrowIntoTop(m: Mem, m': Mem, b: BinState, h: Shape, k: Marks, leastAddr: int, p: int, nb: int)
    requires HeapOk(m, b, h, k, leastAddr, {}) && Owned(h, p) && p + h.C[p] == h.top && h.C[p] < nb < h.C[p] + k.topsize
    requires nb % 16 == 0 && m' == SetTopHead(SetInuse(m, p, nb), p + nb, h.C[p] + k.topsize - nb)
    ensures var s := h.C[p] + k.topsize; var h' := Two(h, p, p + nb, p + s, false);
      && HeapOk(m', b, h', k.(top := p + nb, topsize := s - nb), leastAddr, {}) && Tame(m, h, m', h', {p})
      && Owned(h', p) && h'.C[p] == nb && h'.U == h.U && Preserved(m, m', p, h.C[p])
  {
    hide Core, Run, Two, Tail, Spare, MarksOk, Binned, UsedIn, Outside, Tame, TwoTags, TagsOk, Head, Pinuse,
      WithPinuse, HeapOk;
    UsedFacts(m, b, h, k, leastAddr, {}, p);
    TopFree(m, b, h, leastAddr);
    PairRun(m, b, h, k, leastAddr, {}, p, h.top);
    TopSizeIs(m, b, h, k, leastAddr);
    var mid, hi := p + nb, h.top + h.C[h.top];
    Multiple(p, nb);
    TwoTop(m, m', b, h, p, mid, hi, leastAddr);
    MarksTopGone(b, h, k, p, mid, hi);
    assert k.(top := mid, topsize := hi - mid).Held() + {} == k.Held() + {} - {h.top} + {mid};
    TwoHeap(m, m', b, h, k, leastAddr, {}, p, mid, hi, false, k.(top := mid, topsize := hi - mid), {});
    TwoShape(h, p, mid, hi, false);
    SameUsed(h, p, mid, hi);
  }

  lemma TopSizeIs(m: Mem, b: BinState, h: Shape, k: Marks, leastAddr: int)
    requires HeapOk(m, b, h, k, leastAddr, {}) && h.top in h.C
    ensures k.topsize == h.C[h.top] && h.top != 0
  {
    hide BinsOk, Spare;
  }

  lemma MarksTopGone(b: BinState, h: Shape, k: Marks, lo: int, mid: int, hi: int)
    requires MarksOk(h, k) && Run(b, h, lo, hi) && 0 < lo < mid < hi && lo <= h.top < hi && !(lo <= k.dv < hi)
    ensures MarksOk(Two(h, lo, mid, hi, false), k.(top := mid, topsize := hi - mid))
  {
    hide Binned;
  }

  lemma GrowDvTags(m: Mem, m': Mem, b: BinState, h: Shape, k: Marks, leastAddr: int, p: int, nb: int)
    requires HeapOk(m, b, h, k, leastAddr, {}) && Owned(h, p) && p + h.C[p] == k.dv && k.dv != 0
    requires h.C[p] < nb && nb + MIN_CHUNK_SIZE <= h.C[p] + k.dvsize && nb % 16 == 0
    requires var r, s := p + nb, h.C[p] + k.dvsize;
      m' == ClearPinuse(SetSizeFree(SetInuse(m, p, nb), r, s - nb), p + s)
    ensures TwoTags(m, m', b, h, p, p + nb, k.dv + k.dvsize, false) && Preserved(m, m', p, h.C[p])
  {
    hide Core, Run, Two, Tail, Spare, MarksOk, Binned, UsedIn, Outside, TwoTags, TagsOk, Head, Pinuse, WithPinuse,
      WithoutPinuse, HeapOk, Apart;
    UsedFacts(m, b, h, k, leastAddr, {}, p);
    DvFacts(m, b, h, k, leastAddr, {});
    PairRun(m, b, h, k, leastAddr, {}, p, k.dv);
    var mid, hi := p + nb, k.dv + k.dvsize;
    SpareFacts(m, b, h, k, leastAddr, {}, k.dv);
    Multiple(p, nb);
    Multiple(h.C[p], k.dvsize);
    TwoFree(m, m', b, h, p, mid, hi, leastAddr);
  }

  /** A chunk in use grows into dv, which keeps a rest. */
  lemma GrowIntoDv(m: Mem, m': Mem, b: BinState, h: Shape, k: Marks, leastAddr: int, p: int, nb: int)
    requires HeapOk(m, b, h, k, leastAddr, {}) && Owned(h, p) && p + h.C[p] == k.dv && k.dv != 0
    requires h.C[p] < nb && nb + MIN_CHUNK_SIZE <= h.C[p] + k.dvsize && nb % 16 == 0
    requires var r, s := p + nb, h.C[p] + k.dvsize;
      m' == ClearPinuse(SetSizeFree(SetInuse(m, p, nb), r, s - nb), p + s)
    ensures var s := h.C[p] + k.dvsize; var h' := Two(h, p, p + nb, p + s, false);
      && HeapOk(m', b, h', k.(dv := p + nb, dvsize := s - nb), leastAddr, {}) && Tame(m, h, m', h', {p})
      && Owned(h', p) && h'.C[p] == nb && h'.U == h.U && Preserved(m, m', p, h.C[p])
  {
    hide Core, Run, Two, Tail, Spare, MarksOk, Binned, UsedIn, Outside, Tame, TwoTags, TagsOk, HeapOk,
      Preserved, ClearPinuse, SetSizeFree, SetInuse, Head, Pinuse, Apart;
    GrowDvTags(m, m', b, h, k, leastAddr, p, nb);
    UsedFacts(m, b, h, k, leastAddr, {}, p);
    DvFacts(m, b, h, k, leastAddr, {});
    PairRun(m, b, h, k, leastAddr, {}, p, k.dv);
    var mid, hi := p + nb, k.dv + k.dvsize;
    MarksTwo(b, h, k, p, mid, hi, false);
    TwoHeap(m, m', b, h, k, leastAddr, {}, p, mid, hi, false, k.(dv := mid, dvsize := hi - mid), {});
    TwoShape(h, p, mid, hi, false);
    SameUsed(h, p, mid, hi);
  }

  /** A chunk in use takes all of dv, or all of a free chunk that was taken out of its bin. */
  lemma GrowOverNext(m: Mem, m': Mem, b: BinState, h: Shape, k: Marks, leastAddr: int, X: set<int>, p: int, n: int)
    requires HeapOk(m, b, h, k, leastAddr, X) && Owned(h, p) && n == p + h.C[p]
      && (if n == k.dv then X == {} else X == {n})
    requires n in h.C && m' == SetInuse(m, p, h.C[p] + h.C[n])
    ensures var h' := One(h, p, n + h.C[n], true);
      && HeapOk(m', b, h', if n == k.dv then k.(dv := 0, dvsize := 0) else k, leastAddr, {}) && Tame(m, h, m', h', {p})
      && Owned(h', p) && h'.C[p] == h.C[p] + h.C[n] && h'.U == h.U && Preserved(m, m', p, h.C[p])
  {
    hide Core, Run, Tail, Spare, MarksOk, Binned, UsedIn, Outside, Tame, OneTags, TagsOk, Head, Pinuse, WithPinuse,
      HeapOk;
    UsedFacts(m, b, h, k, leastAddr, X, p);
    SpareFacts(m, b, h, k, leastAddr, X, n);
    PairRun(m, b, h, k, leastAddr, X, p, n);
    var hi := n + h.C[n];
    OneUsed(m, m', b, h, p, hi, leastAddr);
    MarksOne(b, h, k, p, hi, true);
    OneHeap(m, m', b, h, k, leastAddr, X, p, hi, true, if n == k.dv then k.(dv := 0, dvsize := 0) else k, {});
    OneShape(h, p, hi, true);
    SameUsed(h, p, n, hi);
  }

  lemma GrowNextTags(m: Mem, m': Mem, b: BinState, h: Shape, k: Marks, leastAddr: int, p: int, n: int,
                     nb: int, rsize: int)
    requires HeapOk(m, b, h, k, leastAddr, {n}) && Owned(h, p) && n == p + h.C[p] && n in h.C
      && nb + rsize == h.C[p] + h.C[n]
    requires h.C[p] < nb && rsize >= MIN_CHUNK_SIZE && nb % 16 == 0 && Splits(m, m', p, nb, rsize)
    ensures TwoTags(m, m', b, h, p, p + nb, n + h.C[n], true) && Preserved(m, m', p, h.C[p])
  {
    hide Core, Run, Two, Tail, Spare, MarksOk, Binned, UsedIn, Outside, TwoTags, TagsOk, Head, Pinuse,
      WithPinuse, HeapOk, Apart;
    UsedFacts(m, b, h, k, leastAddr, {n}, p);
    SpareFacts(m, b, h, k, leastAddr, {n}, n);
    PairRun(m, b, h, k, leastAddr, {n}, p, n);
    Multiple(p, nb);
    TwoUsed(m, m', b, h, p, p + nb, n + h.C[n], leastAddr);
  }

  /** A chunk in use takes the front of a free chunk that was taken out of its bin; the rest is, for now,
      a chunk in use. */
  lemma GrowIntoNext(m: Mem, m': Mem, b: BinState, h: Shape, k: Marks, leastAddr: int, p: int, n: int,
                     nb: int, rsize: int)
    requires HeapOk(m, b, h, k, leastAddr, {n}) && Owned(h, p) && n == p + h.C[p] && n in h.C
      && nb + rsize == h.C[p] + h.C[n]
    requires h.C[p] < nb && rsize >= MIN_CHUNK_SIZE && nb % 16 == 0 && Splits(m, m', p, nb, rsize)
    ensures var h' := Two(h, p, p + nb, n + h.C[n], true);
      && HeapOk(m', b, h', k, leastAddr, {}) && Tame(m, h, m', h', {p}) && Owned(h', p) && Owned(h', p + nb)
      && h'.C[p] == nb && h'.C[p + nb] == rsize && h'.U == h.U + {p + nb} && Preserved(m, m', p, h.C[p])
  {
    hide Core, Run, Tail, Spare, MarksOk, Binned, UsedIn, Outside, Tame, TwoTags, TagsOk, Head, Pinuse, HeapOk,
      Apart, Splits, Preserved;
    GrowNextTags(m, m', b, h, k, leastAddr, p, n, nb, rsize);
    UsedFacts(m, b, h, k, leastAddr, {n}, p);
    SpareFacts(m, b, h, k, leastAddr, {n}, n);
    PairRun(m, b, h, k, leastAddr, {n}, p, n);
    var mid, hi := p + nb, n + h.C[n];
    MarksTwo(b, h, k, p, mid, hi, true);
    TwoHeap(m, m', b, h, k, leastAddr, {n}, p, mid, hi, true, k, {});
    TwoShape(h, p, mid, hi, true);
    SameUsed(h, p, mid, hi);
  }

  // ---------------------------------------------------------------------------------------
  // Joining

  /** Two chunks in use become one. */
  lemma JoinUsed(m: Mem, m': Mem, b: BinState, h: Shape, k: Marks, leastAddr: int, p: int, n: int)
    requires HeapOk(m, b, h, k, leastAddr, {}) && Owned(h, p) && n == p + h.C[p] && Owned(h, n)
    requires m' == SetInuse(m, p, h.C[p] + h.C[n])
    ensures var h' := One(h, p, n + h.C[n], true);
      && HeapOk(m', b, h', k, leastAddr, {}) && Tame(m, h, m', h', {p, n})
      && Owned(h', p) && h'.C[p] == h.C[p] + h.C[n]
  {
    hide Core, Run, Tail, Spare, MarksOk, Binned, UsedIn, Outside, Tame, OneTags, TagsOk, Head, Pinuse, WithPinuse,
      HeapOk;
    UsedFacts(m, b, h, k, leastAddr, {}, p);
    UsedFacts(m, b, h, k, leastAddr, {}, n);
    PairRun(m, b, h, k, leastAddr, {}, p, n);
    var hi := n + h.C[n];
    OneUsed(m, m', b, h, p, hi, leastAddr);
    MarksOne(b, h, k, p, hi, true);
    OneHeap(m, m', b, h, k, leastAddr, {}, p, hi, true, k, {});
    OneShape(h, p, hi, true);
  }
}
