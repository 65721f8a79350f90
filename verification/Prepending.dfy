/** A segment grows at its front, and the new memory serves a request (malloc.c, prepend_alloc).  The
    heap never says so, but its tags end up as if first one chunk had filled the new memory, then had been
    cut in two, and then the rest had been freed. */
module Prepending {
  import opened ChunkMemory
  import opened Tiling
  import opened AllBins
  import opened Chunks
  import opened HeapState
  import opened HeapInvariant
  import opened Recuts
  import opened TagWrites
  import opened Carving
  import opened Freeing
  import opened Resizing
  import opened Regions
  import opened Segments
  import opened Payloads
  import opened SpaceSteps
  import opened Spaces
  import opened Installing
  import TreeState

  /** The memory if the chunk p reached up to f. */
  function Filled(m: Mem, f: int, p: int): Mem {
    m[p + 8 := Head(f - p, true, true)]
  }

  function FrontCut(h: Shape, f: int, p: int, nb: int): Shape
    requires f in h.R
  {
    Two(Fronted(h, f, p), p, p + nb, f, true)
  }

  /** What is known once the chunk for the request has its head. */
  ghost predicate FrontRequest(m: Mem, b: BinState, h: Shape, k: Marks, leastAddr: int, X: set<int>, f: int,
                               p: int, nb: int) {
    && HeapOk(m, b, h, k, leastAddr, X) && MayFront(h, f, p) && leastAddr <= p
    && Rd(m, p + 8) == Head(nb, true, true) && nb % 16 == 0 && nb >= MIN_CHUNK_SIZE && p + nb + MIN_CHUNK_SIZE <= f
  }

  lemma FrontFacts(m: Mem, b: BinState, h: Shape, k: Marks, leastAddr: int, X: set<int>, f: int, p: int, nb: int)
    requires FrontRequest(m, b, h, k, leastAddr, X, f, p, nb)
    ensures TagsOk(m, h) && p !in h.C && p !in h.U && f in h.R && f in h.C && p % 16 == 0 && f % 16 == 0
      && (f - p) % 16 == 0
    ensures Pinuse(Rd(m, f + 8)) && p + nb !in h.U && p + nb !in h.C && (p + nb) % 16 == 0
    ensures (forall x | x in h.U :: !(p <= x < f)) && p < p + nb < f
  {
    hide Core, Spare, MarksOk, Pinuse, Head;
    TagsIn(m, b, h, k, leastAddr, X);
    FrontPlaces(m, h, f, p);
    RegionFirst(m, h, f);
    Multiple(p, nb);
    FrontNothing(m, h, f, p);
  }

  lemma FrontNothing(m: Mem, h: Shape, f: int, p: int)
    requires TagsOk(m, h) && MayFront(h, f, p)
    ensures forall x | x in h.C :: !(p <= x < f)
    ensures h.U <= h.C.Keys
  {
    hide ChunkOk, RegionOk;
    forall x | x in h.C ensures !(p <= x < f) { HeadFacts(m, h, x); }
  }

  lemma FilledHeap(m: Mem, b: BinState, h: Shape, k: Marks, leastAddr: int, X: set<int>, f: int, p: int, nb: int)
    requires FrontRequest(m, b, h, k, leastAddr, X, f, p, nb)
    ensures f in h.R && HeapOk(Filled(m, f, p), b, Fronted(h, f, p), k, leastAddr, X)
    ensures Owned(Fronted(h, f, p), p) && Fronted(h, f, p).C[p] == f - p
  {
    hide HeapOk, MayFront, Head;
    FrontFacts(m, b, h, k, leastAddr, X, f, p, nb);
    FrontedHeap(m, Filled(m, f, p), b, h, k, leastAddr, X, f, p);
  }

  /** The tags of the cut. */
  lemma CutTags(m: Mem, f: int, p: int, nb: int)
    requires Rd(m, p + 8) == Head(nb, true, true) && Pinuse(Rd(m, f + 8)) && (f - p) % 16 == 0 && 0 < nb && p + nb < f
    ensures Splits(Filled(m, f, p), m[p + nb + 8 := Head(f - p - nb, true, true)], p, nb, f - p - nb)
  {
    hide Pinuse, Head;
    UsedWord(f - p);
  }

  /** The rest is a chunk of its own that is about to be freed. */
  ghost predicate SplitDone(m: Mem, b: BinState, h: Shape, k: Marks, leastAddr: int, X: set<int>, f: int,
                            p: int, nb: int) {
    && f in h.R
    && var q, mv, h1 := p + nb, Filled(m, f, p), Fronted(h, f, p);
       var m2, h2 := m[q + 8 := Head(f - q, true, true)], FrontCut(h, f, p, nb);
       && HeapOk(m2, b, h2, k, leastAddr, X) && Tame(mv, h1, m2, h2, {p})
       && Owned(h2, p) && h2.C[p] == nb && q in h2.C && h2.C[q] == f - q
       && Front(m2, b, h2, k, leastAddr, {}, X, q, q)
  }

  lemma FrontSplit(m: Mem, b: BinState, h: Shape, k: Marks, leastAddr: int, X: set<int>, f: int, p: int, nb: int)
    requires FrontRequest(m, b, h, k, leastAddr, X, f, p, nb)
    ensures SplitDone(m, b, h, k, leastAddr, X, f, p, nb)
  {
    hide HeapOk, MayFront, Head, Tame, Fronted, Filled, Pinuse;
    FrontFacts(m, b, h, k, leastAddr, X, f, p, nb);
    FilledHeap(m, b, h, k, leastAddr, X, f, p, nb);
    var q := p + nb;
    CutTags(m, f, p, nb);
    var m2 := m[q + 8 := Head(f - q, true, true)];
    SplitUsed(Filled(m, f, p), m2, b, Fronted(h, f, p), k, leastAddr, X, p, nb, f - q);
    assert p + (f - p) == f && f - p - nb == f - q;
    Sixteens(q, f);
    UsedWord(f - q);
    assert {} + X == X;
  }

  // ---------------------------------------------------------------------------------------
  // The rest is freed

  /** p is a chunk of nb bytes, and all else in use is as in h1. */
  ghost predicate Prepended(mv: Mem, h1: Shape, m': Mem, h': Shape, p: int, nb: int) {
    && Tame(mv, h1, m', h', {p}) && h'.U == h1.U && Owned(h', p) && h'.C[p] == nb
  }

  /** Where the rest of the new memory, from q to the old first chunk f, goes: it joins top, dv or the free chunk f, or
      is a chunk of its own; unless it is top or dv then, it is binned. */
  ghost predicate RestJoins(h: Shape, k: Marks, h': Shape, k': Marks, b': BinState, f: int, q: int)
    requires f in h.C
  {
    if f == k.top then
      k' == k.(top := q, topsize := k.topsize + (f - q))
    else if f == k.dv then
      k' == k.(dv := q, dvsize := k.dvsize + (f - q))
    else
      && k' == k && q in Binned(b') && q in h'.C && h'.C[q] == f - q + (if f in h.U then 0 else h.C[f])
  }

  lemma RestGone(mv: Mem, h1: Shape, m2: Mem, h2: Shape, m': Mem, p: int, q: int, f: int, hi: int)
    requires p < q < f <= hi && p in h1.U && h2 == Two(h1, p, q, f, true) && Tame(mv, h1, m2, h2, {p})
    requires Tame(m2, h2, m', One(h2, q, hi, false), {q}) && (forall x | x in h1.U && p <= x < f :: x == p)
    requires UsedIn(h2, q, hi) == {q}
    ensures Prepended(mv, h1, m', One(h2, q, hi, false), p, q - p)
  {
    hide Tame;
    var h' := One(h2, q, hi, false);
    TameTwice(mv, h1, m2, h2, m', h', {p}, {q});
    TameLess(mv, h1, m', h', {p} + {q}, {p});
    forall x ensures x in h'.U <==> x in h1.U {
      if x in h2.U && q <= x < hi { assert x in UsedIn(h2, q, hi); }
    }
  }

  lemma RestFacts(m: Mem, b: BinState, h: Shape, k: Marks, leastAddr: int, X: set<int>, f: int, p: int, nb: int)
    requires FrontRequest(m, b, h, k, leastAddr, X, f, p, nb) && f in h.R
    ensures var h1, h2 := Fronted(h, f, p), FrontCut(h, f, p, nb);
      && p in h1.U && (forall x | x in h1.U && p <= x < f :: x == p)
      && f in h2.C && h2.C[f] == h.C[f] && h2.top == h.top && (f in h2.U <==> f in h.U)
  {
    hide HeapOk, MayFront;
    FrontFacts(m, b, h, k, leastAddr, X, f, p, nb);
    FrontTopAway(m, b, h, k, leastAddr, X, f, p, nb);
  }

  lemma FrontTopAway(m: Mem, b: BinState, h: Shape, k: Marks, leastAddr: int, X: set<int>, f: int, p: int, nb: int)
    requires FrontRequest(m, b, h, k, leastAddr, X, f, p, nb)
    ensures !(p <= h.top < f)
  {
    hide Core, Spare, MarksOk, Head;
    TagsIn(m, b, h, k, leastAddr, X);
    FrontNothing(m, h, f, p);
    TopIsChunk(m, h);
  }

  lemma TopIsChunk(m: Mem, h: Shape)
    requires TagsOk(m, h)
    ensures h.top == 0 || h.top in h.C
  {
  }

  /** The first chunk of the segment was top. */
  lemma FrontIntoTop(m: Mem, b: BinState, h: Shape, k: Marks, leastAddr: int, f: int, p: int, nb: int)
    requires FrontRequest(m, b, h, k, leastAddr, {}, f, p, nb) && f == h.top
    ensures f in h.R && f in h.C
    ensures var q := p + nb; var s := f - q + h.C[f];
      var m', h' := SetTopHead(m, q, s), One(FrontCut(h, f, p, nb), q, q + s, false);
      && HeapOk(m', b, h', k.(top := q, topsize := s), leastAddr, {})
      && Prepended(Filled(m, f, p), Fronted(h, f, p), m', h', p, nb)
  {
    hide HeapOk, MayFront, Tame, Fronted, Filled, Pinuse, Front, FrontRequest, One, FrontCut, Head;
    FrontFacts(m, b, h, k, leastAddr, {}, f, p, nb);
    FrontSplit(m, b, h, k, leastAddr, {}, f, p, nb);
    RestFacts(m, b, h, k, leastAddr, {}, f, p, nb);
    var q, h2 := p + nb, FrontCut(h, f, p, nb);
    var m2 := m[q + 8 := Head(f - q, true, true)];
    var s := f - q + h.C[f];
    FreeIntoTop(m2, SetTopHead(m2, q, s), b, h2, k, leastAddr, {}, q, q);
    assert SetTopHead(m2, q, s) == SetTopHead(m, q, s);
    assert f !in h2.U && f !in Binned(b) by { TopUnbinned(m2, b, h2, k, leastAddr, {}); }
    LongRun(m2, b, h2, k, leastAddr, {}, {}, q, q, f);
    assert q != k.dv by { FrontSpare(m2, b, h2, k, leastAddr, {}, {}, q, q); }
    CutIs(h, f, p, nb);
    RestGone(Filled(m, f, p), Fronted(h, f, p), m2, h2, SetTopHead(m2, q, s), p, q, f, q + s);
  }

  lemma CutIs(h: Shape, f: int, p: int, nb: int)
    requires f in h.R
    ensures FrontCut(h, f, p, nb) == Two(Fronted(h, f, p), p, p + nb, f, true)
  {
  }

  lemma TopUnbinned(m: Mem, b: BinState, h: Shape, k: Marks, leastAddr: int, X: set<int>)
    requires HeapOk(m, b, h, k, leastAddr, X)
    ensures h.top !in h.U && h.top !in Binned(b)
  {
    hide BinsOk, Binned, Spare;
    ApartOf(m, h);
  }

  /** It was dv. */
  lemma FrontIntoDv(m: Mem, b: BinState, h: Shape, k: Marks, leastAddr: int, f: int, p: int, nb: int)
    requires FrontRequest(m, b, h, k, leastAddr, {}, f, p, nb) && f == k.dv
    ensures f in h.R && f in h.C
    ensures var q := p + nb; var s := f - q + k.dvsize;
      var m', h' := SetSizeFree(m, q, s), One(FrontCut(h, f, p, nb), q, q + s, false);
      && HeapOk(m', b, h', k.(dv := q, dvsize := s), leastAddr, {})
      && Prepended(Filled(m, f, p), Fronted(h, f, p), m', h', p, nb)
  {
    hide HeapOk, MayFront, Tame, Fronted, Filled, Pinuse, Front, FrontRequest, One, FrontCut, Head;
    FrontFacts(m, b, h, k, leastAddr, {}, f, p, nb);
    FrontSplit(m, b, h, k, leastAddr, {}, f, p, nb);
    RestFacts(m, b, h, k, leastAddr, {}, f, p, nb);
    var q, h2 := p + nb, FrontCut(h, f, p, nb);
    var m2 := m[q + 8 := Head(f - q, true, true)];
    var s := f - q + k.dvsize;
    FreeIntoDv(m2, SetSizeFree(m2, q, s), b, h2, k, leastAddr, {}, q, q);
    assert SetSizeFree(m2, q, s) == SetSizeFree(m, q, s);
    DvFacts(m2, b, h2, k, leastAddr, {});
    LongRun(m2, b, h2, k, leastAddr, {}, {}, q, q, f);
    CutIs(h, f, p, nb);
    RestGone(Filled(m, f, p), Fronted(h, f, p), m2, h2, SetSizeFree(m2, q, s), p, q, f, q + s);
  }

  /** It is in use. */
  lemma FrontBeforeUsed(m: Mem, b: BinState, h: Shape, k: Marks, leastAddr: int, f: int, p: int, nb: int)
    requires FrontRequest(m, b, h, k, leastAddr, {}, f, p, nb) && f in h.U
    ensures f in h.R
    ensures var q := p + nb; var m', h' := SetFreeWithPinuse(m, q, f - q, f), One(FrontCut(h, f, p, nb), q, f, false);
      && HeapOk(m', b, h', k, leastAddr, {q})
      && Prepended(Filled(m, f, p), Fronted(h, f, p), m', h', p, nb)
  {
    hide HeapOk, MayFront, Tame, Fronted, Filled, Pinuse, Front, FrontRequest, One, FrontCut, Head, WithoutPinuse;
    FrontFacts(m, b, h, k, leastAddr, {}, f, p, nb);
    FrontSplit(m, b, h, k, leastAddr, {}, f, p, nb);
    RestFacts(m, b, h, k, leastAddr, {}, f, p, nb);
    var q, h2 := p + nb, FrontCut(h, f, p, nb);
    var m2 := m[q + 8 := Head(f - q, true, true)];
    FreeBeforeUsed(m2, SetFreeWithPinuse(m2, q, f - q, f), b, h2, k, leastAddr, {}, q, q);
    assert SetFreeWithPinuse(m2, q, f - q, f) == SetFreeWithPinuse(m, q, f - q, f);
    FrontRun(m2, b, h2, k, leastAddr, {}, {}, q, q);
    assert q != k.dv by { FrontSpare(m2, b, h2, k, leastAddr, {}, {}, q, q); }
    CutIs(h, f, p, nb);
    RestGone(Filled(m, f, p), Fronted(h, f, p), m2, h2, SetFreeWithPinuse(m2, q, f - q, f), p, q, f, f);
  }

  /** A chunk is freed together with the one behind it, that was taken out of its bin. */
  lemma NextFreed(m: Mem, b: BinState, h: Shape, k: Marks, leastAddr: int, q: int, f: int)
    requires Front(m, b, h, k, leastAddr, {}, {f}, q, q) && q in h.C && f == q + h.C[q] && f in h.C
    ensures var n := f + h.C[f]; var m', h' := SetSizeFree(m, q, n - q), One(h, q, n, false);
      && n > f && UsedIn(h, q, n) == {q} && HeapOk(m', b, h', k, leastAddr, {q}) && Tame(m, h, m', h', {q})
  {
    hide HeapOk, Tame, Pinuse, One, Head, WithoutPinuse, SetSizeFree, UsedIn, FrontOk;
    var n := f + h.C[f];
    assert HeapOk(m, b, h, k, leastAddr, {f}) by { assert {} + {f} == {f}; }
    SpareFacts(m, b, h, k, leastAddr, {f}, f);
    FreeWithNext(m, SetSizeFree(m, q, n - q), b, h, k, leastAddr, {}, q, q, f);
    LongRun(m, b, h, k, leastAddr, {}, {f}, q, q, f);
    FrontSpare(m, b, h, k, leastAddr, {}, {f}, q, q);
  }

  /** It was taken out of its bin. */
  lemma FrontWithNext(m: Mem, b: BinState, h: Shape, k: Marks, leastAddr: int, f: int, p: int, nb: int)
    requires FrontRequest(m, b, h, k, leastAddr, {f}, f, p, nb)
    ensures f in h.R && f in h.C
    ensures var q, n := p + nb, f + h.C[f];
      var m', h' := SetFreeWithPinuse(m, q, n - q, n), One(FrontCut(h, f, p, nb), q, n, false);
      && HeapOk(m', b, h', k, leastAddr, {q})
      && Prepended(Filled(m, f, p), Fronted(h, f, p), m', h', p, nb)
  {
    hide HeapOk, MayFront, Tame, Fronted, Filled, Pinuse, Front, FrontRequest, One, FrontCut, Head, WithoutPinuse,
      SetSizeFree, SetFreeWithPinuse, UsedIn;
    FrontFacts(m, b, h, k, leastAddr, {f}, f, p, nb);
    FrontSplit(m, b, h, k, leastAddr, {f}, f, p, nb);
    RestFacts(m, b, h, k, leastAddr, {f}, f, p, nb);
    var q, n, h2 := p + nb, f + h.C[f], FrontCut(h, f, p, nb);
    var m2 := m[q + 8 := Head(f - q, true, true)];
    NextFreed(m2, b, h2, k, leastAddr, q, f);
    assert HeapOk(m, b, h, k, leastAddr, {f}) by { RequestHeap(m, b, h, k, leastAddr, {f}, f, p, nb); }
    BehindTaken(m, b, h, k, leastAddr, f);
    RestWrites(m, q, f, n);
    CutIs(h, f, p, nb);
    RestGone(Filled(m, f, p), Fronted(h, f, p), m2, h2, SetSizeFree(m2, q, n - q), p, q, f, n);
  }

  /** Behind a free chunk the PINUSE bit is clear already. */
  lemma BehindTaken(m: Mem, b: BinState, h: Shape, k: Marks, leastAddr: int, f: int)
    requires HeapOk(m, b, h, k, leastAddr, {f}) && f in h.C
    ensures ClearPinuse(m, f + h.C[f]) == m && h.C[f] > 0
  {
    hide Core, Spare, MarksOk, Head, WithoutPinuse;
    SpareFacts(m, b, h, k, leastAddr, {f}, f);
    Carving.SizesOf(m, b, h, k, leastAddr, {f}, f);
    BehindSpare(m, h, f);
    var n := f + h.C[f];
    HeadFacts(m, h, n);
    SameWord(m, n + 8);
  }

  lemma RestWrites(m: Mem, q: int, f: int, n: int)
    requires ClearPinuse(m, n) == m
    ensures SetSizeFree(m[q + 8 := Head(f - q, true, true)], q, n - q) == SetFreeWithPinuse(m, q, n - q, n)
  {
    hide ClearPinuse, Head;
  }

  lemma RequestHeap(m: Mem, b: BinState, h: Shape, k: Marks, leastAddr: int, X: set<int>, f: int, p: int, nb: int)
    requires FrontRequest(m, b, h, k, leastAddr, X, f, p, nb)
    ensures HeapOk(m, b, h, k, leastAddr, X)
  {
  }

  lemma SameWord(m: Mem, a: int)
    requires Rd(m, a) != 0
    ensures m[a := Rd(m, a)] == m
  {
  }

  // ---------------------------------------------------------------------------------------
  // The space, and the memory of the program

  /** A write to new memory concerns nobody. */
  lemma NewWordAll(m: Mem, b: BinState, h: Shape, k: Marks, leastAddr: int, segs: seq<Segment>, maps: Mappings,
                   granted: set<int>, unit: nat, noncontiguous: bool, base: int, n: int, a: int, v: int)
    requires unit > 0 && HeapOk(m, b, h, k, leastAddr, {})
      && Laid(m, h, leastAddr, segs, maps, granted, unit, noncontiguous)
    requires NewBlock(segs, maps, base, n) && base <= a < base + n
    ensures var m' := m[a := v];
      && HeapOk(m', b, h, k, leastAddr, {}) && Laid(m', h, leastAddr, segs, maps, granted, unit, noncontiguous)
      && Kept(m, Usable(h, maps), m', Usable(h, maps), {})
  {
    hide HeapOk, TagsOk, SegsOk, HasAll, OwnedMap, Usable, Kept, LiveWord;
    var m' := m[a := v];
    TagsIn(m, b, h, k, leastAddr, {});
    NewIsForeign(m, h, segs, maps, base, n);
    ElsewhereHeap(m, m', b, h, k, leastAddr, {});
    NewWordMaps(m, segs, maps, base, n, a, v);
    NewWordLive(m, h, segs, maps, base, n, a, v);
    UsableKept(m, h, m', h, maps);
  }

  lemma NewWordMaps(m: Mem, segs: seq<Segment>, maps: Mappings, base: int, n: int, a: int, v: int)
    requires MapsOk(m, maps, segs) && NewBlock(segs, maps, base, n) && base <= a < base + n
    ensures MapsOk(m[a := v], maps, segs)
    ensures forall c, x | c in maps && c <= x < c + maps[c].ChunkBytes(c) :: Rd(m[a := v], x) == Rd(m, x)
  {
    forall c | c in maps ensures MapOk(m[a := v], c, maps[c]) && !(maps[c].base <= a < maps[c].End()) {
      assert MapOk(m, c, maps[c]);
      assert BlocksApart(base, n, maps[c].base, maps[c].size);
    }
  }

  lemma NewWordLive(m: Mem, h: Shape, segs: seq<Segment>, maps: Mappings, base: int, n: int, a: int, v: int)
    requires TagsOk(m, h) && SegsOk(h, segs) && NewBlock(segs, maps, base, n) && base <= a < base + n
    ensures forall q, x {:trigger LiveWord(h, q, x)} | LiveWord(h, q, x) :: Rd(m[a := v], x) == Rd(m, x)
  {
    hide TagsOk, SegsOk;
    forall q, x {:trigger LiveWord(h, q, x)} | LiveWord(h, q, x) ensures Rd(m[a := v], x) == Rd(m, x) {
      var i := ChunkHeld(m, h, segs, q);
      assert BlocksApart(base, n, segs[i].base, segs[i].size);
    }
  }

  lemma FrontOwned(m: Mem, h: Shape, f: int, p: int)
    requires TagsOk(m, h) && MayFront(h, f, p)
    ensures f in h.C && f in h.R && p !in OwnedMap(h) && OwnedMap(Fronted(h, f, p)) == OwnedMap(h)[p := f - p - 8]
  {
    hide ChunkOk, RegionOk, TreeState.Apart;
    FrontPlaces(m, h, f, p);
    RegionFirst(m, h, f);
    var h1 := Fronted(h, f, p);
    forall q | q in h.C && q in h.U ensures q + h.C[q] != p {
      FootFacts(m, h, q);
      HeadFacts(m, h, q);
    }
    EqualIfSame(OwnedMap(h1), OwnedMap(h)[p := f - p - 8]);
  }

  lemma FilledKept(m: Mem, h: Shape, segs: seq<Segment>, maps: Mappings, f: int, p: int, base: int, n: int)
    requires TagsOk(m, h) && SegsOk(h, segs) && MapsOk(m, maps, segs) && NewBlock(segs, maps, base, n)
    requires base <= p && p + 16 <= base + n && MayFront(h, f, p)
    ensures p !in maps && f in h.C && f in h.R
    ensures Usable(Fronted(h, f, p), maps) == Usable(h, maps)[p := f - p - 8] && p !in Usable(h, maps)
    ensures Kept(m, Usable(h, maps), Filled(m, f, p), Usable(Fronted(h, f, p), maps), {})
  {
    hide TagsOk, SegsOk, MapsOk, OwnedMap, NewBlock, MayFront, LiveWord;
    FrontOwned(m, h, f, p);
    NewNotMapped(m, segs, maps, base, n, p);
    UsableWith(h, Fronted(h, f, p), maps, p, f - p - 8);
    NewWordLive(m, h, segs, maps, base, n, p + 8, Head(f - p, true, true));
    NewWordMaps(m, segs, maps, base, n, p + 8, Head(f - p, true, true));
    UsableKept(m, h, Filled(m, f, p), h, maps);
  }

  lemma NewNotMapped(m: Mem, segs: seq<Segment>, maps: Mappings, base: int, n: int, p: int)
    requires MapsOk(m, maps, segs) && NewBlock(segs, maps, base, n) && base <= p < base + n
    ensures p !in maps
  {
    hide MapOk;
    if p in maps {
      MapHolds(m, segs, maps, p);
      var apart := BlocksApart(base, n, maps[p].base, maps[p].size);
    }
  }

  /** After prepend_alloc. */
  lemma PrependAll(m: Mem, b: BinState, h: Shape, k: Marks, leastAddr: int, X: set<int>, segs: seq<Segment>,
                   maps: Mappings, granted: set<int>, unit: nat, noncontiguous: bool, i: nat, base: int, n: int,
                   nb: int, m': Mem, h': Shape)
    requires unit > 0 && i < |segs| && Laid(m, h, leastAddr, segs, maps, granted, unit, noncontiguous)
    requires NewBlock(segs, maps, base, n) && Has(granted, base, n) && base + n == segs[i].base
    requires FrontRequest(m, b, h, k, leastAddr, X, First(segs[i]), AlignAsChunk(base), nb)
    requires AlignAsChunk(base) + MIN_CHUNK_SIZE <= base + n && TagsOk(m', h') && First(segs[i]) in h.R
    requires Prepended(Filled(m, First(segs[i]), AlignAsChunk(base)), Fronted(h, First(segs[i]), AlignAsChunk(base)),
                       m', h', AlignAsChunk(base), nb)
    requires segs[i].mmapped ==> Whole(n, unit)
    ensures var p := AlignAsChunk(base);
      && Laid(m', h', leastAddr, Resized(segs, i, base, n + segs[i].size), maps, granted, unit, noncontiguous)
      && p !in Usable(h, maps) && Usable(h', maps) == Usable(h, maps)[p := nb - 8]
      && Kept(m, Usable(h, maps), m', Usable(h', maps), {})
  {
    hide HeapOk, TagsOk, SegsOk, MapsOk, HasAll, OwnedMap, NewBlock, MayFront, Tame, Fronted, Filled, Usable, Kept,
      Head, AlignAsChunk, First;
    var f, p := First(segs[i]), AlignAsChunk(base);
    var mv, h1 := Filled(m, f, p), Fronted(h, f, p);
    AlignsUp(base);
    FrontFacts(m, b, h, k, leastAddr, X, f, p, nb);
    FrontSpace(m, mv, h, segs, maps, granted, i, base, n) by { FilledOnly(m, f, p, base, n); }
    FilledKept(m, h, segs, maps, f, p, base, n);
    FilledHeap(m, b, h, k, leastAddr, X, f, p, nb);
    TagsIn(mv, b, h1, k, leastAddr, X);
    HeapStep(mv, h1, m', h', {p}, Resized(segs, i, base, n + segs[i].size), maps, granted);
    OwnedResized(mv, h1, m', h', p);
    UsableWith(h1, h', maps, p, nb - 8);
    KeptFresh(m, Usable(h, maps), mv, Usable(h1, maps), m', Usable(h', maps), p);
    WidenedKinds(m, h, segs, maps, unit, noncontiguous, i, base, n);
  }

  lemma FilledOnly(m: Mem, f: int, p: int, base: int, n: int)
    requires base <= p && p + 16 <= base + n
    ensures forall a {:trigger Rd(Filled(m, f, p), a)} | !(base <= a < base + n) :: Rd(Filled(m, f, p), a) == Rd(m, a)
  {
  }

  lemma WidenedKinds(m: Mem, h: Shape, segs: seq<Segment>, maps: Mappings, unit: nat, noncontiguous: bool, i: nat,
                     base: int, n: int)
    requires unit > 0 && TagsOk(m, h) && SegsOk(h, segs) && MapsOk(m, maps, segs)
      && Kinds(segs, unit, noncontiguous) && i < |segs|
    requires (segs[i].mmapped ==> Whole(n, unit)) && n >= 0
    ensures Kinds(Resized(segs, i, base, n + segs[i].size), unit, noncontiguous)
  {
    hide TagsOk, SegsOk, MapsOk;
    HeldIsSized(m, h, segs, maps);
    if segs[i].mmapped { UnitsAdd(n, segs[i].size, unit); }
  }

  // ---------------------------------------------------------------------------------------
  // Steps of the methods

  /** After the rest was put into its bin. */
  lemma PrependedOn(mv: Mem, h1: Shape, m: Mem, h: Shape, m': Mem, p: int, nb: int)
    requires Prepended(mv, h1, m, h, p, nb) && Tame(m, h, m', h, {})
    ensures Prepended(mv, h1, m', h, p, nb)
  {
    hide Tame;
    TameTwice(mv, h1, m, h, m', h, {p}, {});
    assert {p} + {} == {p};
  }

  /** Taking the old first chunk out of its bin does not touch the new memory. */
  lemma RequestAfterUnlink(m: Mem, b: BinState, h: Shape, k: Marks, leastAddr: int, m1: Mem, b1: BinState, f: int,
                           p: int, nb: int)
    requires FrontRequest(m, b, h, k, leastAddr, {}, f, p, nb) && HeapOk(m1, b1, h, k, leastAddr, {f})
      && Tame(m, h, m1, h, {})
    ensures FrontRequest(m1, b1, h, k, leastAddr, {f}, f, p, nb)
  {
    hide HeapOk, Head, TagsOk;
    assert HeapOk(m, b, h, k, leastAddr, {}) by { RequestHeap(m, b, h, k, leastAddr, {}, f, p, nb); }
    TagsIn(m, b, h, k, leastAddr, {});
    forall g | g in h.R ensures !(g <= p + 8 < h.R[g] + 16) {
      RegionFirst(m, h, g);
    }
    assert Foreign(h, p + 8);
  }

  /** What the old first chunk is. */
  lemma OldFirst(m: Mem, b: BinState, h: Shape, k: Marks, leastAddr: int, f: int, p: int, nb: int)
    requires FrontRequest(m, b, h, k, leastAddr, {}, f, p, nb)
    ensures f in h.C && Pinuse(Rd(m, f + 8)) && k.top == h.top && ChunkSize(Rd(m, f + 8)) == h.C[f]
      && (IsInuse(Rd(m, f + 8)) <==> f in h.U)
    ensures f == h.top ==> k.topsize == h.C[f]
    ensures f != h.top && f != k.dv && f !in h.U ==> f in Binned(b)
    ensures HeapOk(m, b, h, k, leastAddr, {}) && Core(m, b, h, leastAddr) && h.C[f] > 0
  {
    hide BinsOk, Binned, TagsOk, HeadOk, Head, ChunkSize, Pinuse, IsInuse;
    TagsIn(m, b, h, k, leastAddr, {});
    assert f in h.R;
    RegionFirst(m, h, f);
    HeadFacts(m, h, f);
    if f != h.top && f != k.dv && f !in h.U && f !in Binned(b) { var had := f in Spare(b, h); }
  }

  /** The new memory in front of a segment, with the first word written. */
  lemma PrependPlace(m: Mem, b: BinState, h: Shape, k: Marks, leastAddr: int, segs: seq<Segment>, maps: Mappings,
                     granted: set<int>, unit: nat, noncontiguous: bool, i: nat, base: int, n: int, nb: int)
    requires unit > 0 && i < |segs| && Laid(m, h, leastAddr, segs, maps, granted, unit, noncontiguous)
      && HeapOk(m, b, h, k, leastAddr, {})
    requires NewBlock(segs, maps, base, n) && base + n == segs[i].base
    requires nb % 16 == 0 && nb >= MIN_CHUNK_SIZE && nb + SYS_ALLOC_PADDING <= n && leastAddr <= base
    ensures var p, f := AlignAsChunk(base), AlignAsChunk(base + n); var m1 := SetSizeInuse(m, p, nb);
      && f == First(segs[i]) && p >= HEAP_MIN && p + nb + MIN_CHUNK_SIZE <= f
      && FrontRequest(m1, b, h, k, leastAddr, {}, f, p, nb) && TagsOk(m1, h)
      && Laid(m1, h, leastAddr, segs, maps, granted, unit, noncontiguous)
      && Kept(m, Usable(h, maps), m1, Usable(h, maps), {})
  {
    hide HeapOk, TagsOk, SegsOk, MapsOk, HasAll, MayFront, Usable, Kept, Head, AlignAsChunk;
    AlignsUp(base);
    AlignsUp(base + n);
    TagsIn(m, b, h, k, leastAddr, {});
    MayGrowFront(m, h, segs, maps, i, base, n);
    NewWordAll(m, b, h, k, leastAddr, segs, maps, granted, unit, noncontiguous, base, n, AlignAsChunk(base) + 8,
               Head(nb, true, true));
    OneWord(m, AlignAsChunk(base) + 8, Head(nb, true, true));
    TagsIn(SetSizeInuse(m, AlignAsChunk(base), nb), b, h, k, leastAddr, {});
  }

  lemma PrependDone(m0: Mem, m: Mem, h: Shape, k: Marks, leastAddr: int, m1: Mem, b1: BinState, X: set<int>,
                    segs: seq<Segment>, maps: Mappings, granted: set<int>, unit: nat, noncontiguous: bool, i: nat,
                    base: int, n: int, nb: int, m': Mem, b': BinState, h': Shape, k': Marks)
    requires unit > 0 && i < |segs| && Laid(m, h, leastAddr, segs, maps, granted, unit, noncontiguous)
    requires Kept(m0, Usable(h, maps), m, Usable(h, maps), {}) && TagsOk(m, h) && Tame(m, h, m1, h, {})
    requires NewBlock(segs, maps, base, n) && Has(granted, base, n) && base + n == segs[i].base
    requires FrontRequest(m1, b1, h, k, leastAddr, X, First(segs[i]), AlignAsChunk(base), nb)
    requires AlignAsChunk(base) + MIN_CHUNK_SIZE <= base + n && First(segs[i]) in h.R
    requires HeapOk(m', b', h', k', leastAddr, {})
    requires Prepended(Filled(m1, First(segs[i]), AlignAsChunk(base)), Fronted(h, First(segs[i]), AlignAsChunk(base)),
                       m', h', AlignAsChunk(base), nb)
    requires segs[i].mmapped ==> Whole(n, unit)
    ensures var p := AlignAsChunk(base);
      && Laid(m', h', leastAddr, Resized(segs, i, base, n + segs[i].size), maps, granted, unit, noncontiguous)
      && p !in Usable(h, maps) && Usable(h', maps) == Usable(h, maps)[p := nb - 8]
      && Kept(m0, Usable(h, maps), m', Usable(h', maps), {})
  {
    hide HeapOk, TagsOk, SegsOk, MapsOk, HasAll, Tame, Fronted, Filled, Usable, Kept, FrontRequest, Prepended, Resized,
      AlignAsChunk, NewBlock, Has;
    assert TagsOk(m1, h) by { FrontFacts(m1, b1, h, k, leastAddr, X, First(segs[i]), AlignAsChunk(base), nb); }
    TagsIn(m', b', h', k', leastAddr, {});
    HeapStep(m, h, m1, h, {}, segs, maps, granted);
    PrependAll(m1, b1, h, k, leastAddr, X, segs, maps, granted, unit, noncontiguous, i, base, n, nb, m', h');
    KeptOn(m0, Usable(h, maps), m, Usable(h, maps), m1, Usable(h, maps));
    KeptOn(m0, Usable(h, maps), m1, Usable(h, maps), m', Usable(h', maps));
  }
}
