/** New memory becomes part of the heap (malloc.c, the second half of sys_alloc): heap, space and the memory
    of the program afterwards, for each of the four places new memory can go. */
module Installing {
  import opened Words
  import opened Tiling
  import opened ChunkMemory
  import opened AllBins
  import opened Chunks
  import opened HeapState
  import opened HeapInvariant
  import opened HeapBins
  import opened TagWrites
  import opened Carving
  import opened Freeing
  import opened Regions
  import opened Segments
  import opened System
  import opened Payloads
  import opened SpaceSteps
  import opened Spaces
  import opened HeapFacts
  import opened Requests
  import SmallBins

  lemma TagsIn(m: Mem, b: BinState, h: Shape, k: Marks, leastAddr: int, X: set<int>)
    requires HeapOk(m, b, h, k, leastAddr, X)
    ensures TagsOk(m, h)
  {
  }

  /** With no chunks, the lowest address may be anywhere. */
  lemma EmptyLeast(m: Mem, b: BinState, h: Shape, k: Marks, leastAddr: int, least': int)
    requires HeapOk(m, b, h, k, leastAddr, {}) && h.C == map[]
    ensures HeapOk(m, b, h, k, least', {})
  {
    hide TagsOk, Spare, MarksOk, SmallBins.BinsOk;
    BinnedPlaces(m, b, h.C, leastAddr);
  }

  /** init_top writes two words. */
  function InitTop(m: Mem, f: int, e: int): Mem {
    m[f + 8 := Head(e - f, true, false)][e + 8 := TOP_FOOT_SIZE]
  }

  predicate LeastFor(leastAddr: int, base: int, least': int) {
    least' == if leastAddr == 0 || base < leastAddr then base else leastAddr
  }

  // ---------------------------------------------------------------------------------------
  // The first segment

  lemma FirstHeap(m: Mem, b: BinState, h: Shape, k: Marks, leastAddr: int, least': int, f: int, e: int)
    requires HeapOk(m, b, h, k, leastAddr, {}) && h.C == map[] && h.R == map[]
    requires HEAP_MIN <= f && f + 16 <= e <= WORD && f % 16 == 0 && e % 8 == 0 && least' <= f
    ensures HeapOk(InitTop(m, f, e), b, WithRegion(h, f, e), k.(top := f, topsize := e - f), least', {})
  {
    hide TagsOk, BinsOk, Binned, Spare, Core;
    EmptyLeast(m, b, h, k, leastAddr, least');
    ElsewhereHeap(m, InitTop(m, f, e), b, h, k, least', {});
    assert h.top == 0 by { NoTop(m, b, h, k, leastAddr); }
    AddRegionHeap(InitTop(m, f, e), b, h, k, least', {}, f, e);
  }

  lemma NoTop(m: Mem, b: BinState, h: Shape, k: Marks, leastAddr: int)
    requires HeapOk(m, b, h, k, leastAddr, {}) && h.C == map[]
    ensures h.top == 0 && h.U == {}
  {
    hide BinsOk, Binned;
  }

  lemma InitAll(m: Mem, b: BinState, h: Shape, k: Marks, leastAddr: int, segs: seq<Segment>, maps: Mappings,
                granted: set<int>, unit: nat, noncontiguous: bool, s: Segment, least': int)
    requires unit > 0 && HeapOk(m, b, h, k, leastAddr, {})
      && Laid(m, h, leastAddr, segs, maps, granted, unit, noncontiguous)
    requires segs == [] && s.at == 0 && NewBlock(segs, maps, s.base, s.size) && s.End() % 8 == 0
      && Has(granted, s.base, s.size)
    requires LeastFor(leastAddr, s.base, least') && s.size >= SYS_ALLOC_PADDING + 16
    requires s.mmapped ==> noncontiguous && Whole(s.size, unit)
    ensures var f, e := First(s), s.End() - TOP_FOOT_SIZE; var m', h' := InitTop(m, f, e), WithRegion(h, f, e);
      && HeapOk(m', b, h', k.(top := f, topsize := e - f), least', {})
      && Laid(m', h', least', [s], maps, granted, unit, noncontiguous)
      && Usable(h', maps) == Usable(h, maps) && Kept(m, Usable(h, maps), m', Usable(h', maps), {})
  {
    hide HeapOk, HasAll, MapOk, TagsOk, SegsOk, Usable, Kept, WithRegion;
    TagsIn(m, b, h, k, leastAddr, {});
    NoRegions(m, h, segs);
    AlignsUp(s.base);
    var f, e := First(s), s.End() - TOP_FOOT_SIZE;
    FirstHeap(m, b, h, k, leastAddr, least', f, e);
    InitSpace(m, InitTop(m, f, e), h, segs, maps, granted, s);
    NothingOwned(m, h, WithRegion(h, f, e), InitTop(m, f, e), f, e);
  }

  lemma NothingOwned(m: Mem, h: Shape, h': Shape, m': Mem, f: int, e: int)
    requires TagsOk(m, h) && h.C == map[] && h' == WithRegion(h, f, e)
    ensures Usable(h', map[]) == Usable(h, map[]) && Kept(m, Usable(h, map[]), m', Usable(h', map[]), {})
  {
    assert h.U == {};
    EqualIfSame(Usable(h', map[]), Usable(h, map[]));
    EqualIfSame(Usable(h, map[]), map[]);
  }

  // ---------------------------------------------------------------------------------------
  // The segment of top gets longer

  lemma ResizeAll(m: Mem, b: BinState, h: Shape, k: Marks, leastAddr: int, segs: seq<Segment>, maps: Mappings,
                  granted: set<int>, granted': set<int>, unit: nat, noncontiguous: bool, size: nat)
    requires unit > 0 && HeapOk(m, b, h, k, leastAddr, {})
      && Laid(m, h, leastAddr, segs, maps, granted, unit, noncontiguous)
    requires segs != [] && OthersApart(segs, 0, maps, segs[0].base, size) && segs[0].base + size <= LIMIT
      && (segs[0].base + size) % 8 == 0
    requires k.topsize + size - segs[0].size > 0 && HasAll(granted', Resized(segs, 0, segs[0].base, size), maps)
    requires segs[0].mmapped ==> Whole(size, unit)
    ensures var e := h.top + k.topsize + size - segs[0].size;
      var h', segs', m' := MovedEnd(h, First(segs[0]), e), Resized(segs, 0, segs[0].base, size), InitTop(m, h.top, e);
      && h.top in h.C && HeapOk(m', b, h', k.(topsize := e - h.top), leastAddr, {})
      && Laid(m', h', leastAddr, segs', maps, granted', unit, noncontiguous)
      && Usable(h', maps) == Usable(h, maps) && Kept(m, Usable(h, maps), m', Usable(h', maps), {})
      && SegTotal(segs') == SegTotal(segs) - segs[0].size + size
  {
    hide HeapOk, HasAll, MapOk, TagsOk, SegsOk, MovedEnd, Kept, MayMove, SegTotal, OthersApart;
    TopPlace(m, b, h, k, leastAddr, segs);
    var f, e := First(segs[0]), h.top + k.topsize + size - segs[0].size;
    TopMayMove(m, h, segs, maps, size);
    MoveEndHeap(m, InitTop(m, h.top, e), b, h, k, leastAddr, {}, f, e) by { InitTopIs(m, h.top, e); }
    TopRegion(m, h, segs);
    ResizeSpace(m, InitTop(m, h.top, e), h, segs, maps, granted, granted', size);
    MovedLive(m, InitTop(m, h.top, e), h, f, e);
    UsableKept(m, h, InitTop(m, h.top, e), MovedEnd(h, f, e), maps);
    SegTotalUpdate(segs, 0, segs[0].(size := size));
  }

  lemma AppendAll(m: Mem, b: BinState, h: Shape, k: Marks, leastAddr: int, segs: seq<Segment>, maps: Mappings,
                  granted: set<int>, unit: nat, noncontiguous: bool, n: nat)
    requires unit > 0 && HeapOk(m, b, h, k, leastAddr, {})
      && Laid(m, h, leastAddr, segs, maps, granted, unit, noncontiguous)
    requires segs != [] && NewBlock(segs, maps, segs[0].End(), n) && n % 8 == 0 && Has(granted, segs[0].End(), n)
    requires segs[0].mmapped ==> Whole(n, unit)
    ensures segs[0].size >= 0
    ensures var size := segs[0].size + n; var e := h.top + k.topsize + size - segs[0].size;
      var h', segs', m' := MovedEnd(h, First(segs[0]), e), Resized(segs, 0, segs[0].base, size), InitTop(m, h.top, e);
      && h.top in h.C && HeapOk(m', b, h', k.(topsize := e - h.top), leastAddr, {})
      && Laid(m', h', leastAddr, segs', maps, granted, unit, noncontiguous)
      && Usable(h', maps) == Usable(h, maps) && Kept(m, Usable(h, maps), m', Usable(h', maps), {})
      && SegTotal(segs') == SegTotal(segs) + n
  {
    hide HeapOk, HasAll, MapOk, TagsOk, SegsOk, InitTop, MovedEnd, Usable, Kept, SegTotal, OthersApart,
      NewBlock, MapsOk;
    TopPlace(m, b, h, k, leastAddr, segs);
    HeldIsSized(m, h, segs, maps);
    WiderBehind(m, h, segs, maps, n);
    AppendedBlock(h, segs, maps, n);
    AppendedHas(granted, segs, maps, n);
    if segs[0].mmapped { UnitsAdd(segs[0].size, n, unit); }
    ResizeAll(m, b, h, k, leastAddr, segs, maps, granted, granted, unit, noncontiguous, segs[0].size + n);
  }

  lemma InitTopIs(m: Mem, f: int, e: int)
    ensures InitTop(m, f, e) == m[f + 8 := Head(e - f, true, false)][e + 8 := TOP_FOOT_SIZE]
  {
  }

  lemma WiderBehind(m: Mem, h: Shape, segs: seq<Segment>, maps: Mappings, n: nat)
    requires TagsOk(m, h) && SegsOk(h, segs) && MapsOk(m, maps, segs) && segs != []
      && NewBlock(segs, maps, segs[0].End(), n)
    ensures OthersApart(segs, 0, maps, segs[0].base, segs[0].size + n)
  {
    hide TagsOk;
    HeldIsSized(m, h, segs, maps);
    forall j | 1 <= j < |segs| ensures BlocksApart(segs[0].base, segs[0].size + n, segs[j].base, segs[j].size) {
      assert BlocksApart(segs[0].base, segs[0].size, segs[j].base, segs[j].size);
      assert BlocksApart(segs[0].End(), n, segs[j].base, segs[j].size);
    }
    forall c | c in maps ensures BlocksApart(segs[0].base, segs[0].size + n, maps[c].base, maps[c].size) {
      assert BlocksApart(maps[c].base, maps[c].size, segs[0].base, segs[0].size);
      assert BlocksApart(segs[0].End(), n, maps[c].base, maps[c].size);
    }
  }

  lemma AppendedBlock(h: Shape, segs: seq<Segment>, maps: Mappings, n: nat)
    requires SegsOk(h, segs) && segs != [] && NewBlock(segs, maps, segs[0].End(), n) && n % 8 == 0
    ensures segs[0].base + (segs[0].size + n) <= LIMIT && (segs[0].base + (segs[0].size + n)) % 8 == 0
  {
    assert SegOk(h, segs[0]);
  }

  lemma AppendedHas(granted: set<int>, segs: seq<Segment>, maps: Mappings, n: nat)
    requires HasAll(granted, segs, maps) && segs != [] && Has(granted, segs[0].End(), n)
    ensures HasAll(granted, Resized(segs, 0, segs[0].base, segs[0].size + n), maps)
  {
    var t := Resized(segs, 0, segs[0].base, segs[0].size + n);
    assert Has(granted, segs[0].base, segs[0].size);
    forall i | 0 <= i < |t| ensures Has(granted, t[i].base, t[i].size) {
      if i > 0 { assert Has(granted, segs[i].base, segs[i].size); }
    }
  }

  lemma UnitsAdd(x: nat, y: nat, unit: nat)
    requires unit > 0 && Whole(x, unit) && Whole(y, unit)
    ensures Whole(x + y, unit)
  {
    var q, r := x / unit, y / unit;
    assert x == q * unit by { assert x == unit * q; assert unit * q == q * unit; }
    assert y == r * unit by { assert y == unit * r; assert unit * r == r * unit; }
    assert (q + r) * unit == x + y;
    DivMod(q + r, unit, 0);
  }

  /** No payload is near the end of top. */
  lemma MovedLive(m: Mem, m': Mem, h: Shape, f: int, e: int)
    requires TagsOk(m, h) && MayMove(h, f, e) && h.top != 0
    requires forall a {:trigger Rd(m', a)} | a != h.top + 8 && a != e + 8 :: Rd(m', a) == Rd(m, a)
    ensures forall q, a {:trigger LiveWord(h, q, a)} | LiveWord(h, q, a) :: Rd(m', a) == Rd(m, a)
  {
    hide TagsOk;
    ApartOfTop(m, h);
    forall q, a {:trigger LiveWord(h, q, a)} | LiveWord(h, q, a) ensures Rd(m', a) == Rd(m, a) {
      assert q != h.top;
    }
  }

  // ---------------------------------------------------------------------------------------
  // A new segment

  lemma AddAll(m: Mem, m1: Mem, m2: Mem, b: BinState, h: Shape, k: Marks, leastAddr: int,
               segs: seq<Segment>, maps: Mappings, granted: set<int>, unit: nat, noncontiguous: bool, s: Segment)
    requires unit > 0 && HeapOk(m, b, h, k, leastAddr, {})
      && Laid(m, h, leastAddr, segs, maps, granted, unit, noncontiguous)
    requires segs != [] && s.at == 0 && NewBlock(segs, maps, s.base, s.size) && s.End() % 8 == 0
      && Has(granted, s.base, s.size)
    requires leastAddr <= s.base && s.size >= SYS_ALLOC_PADDING + 16
    requires s.mmapped ==> noncontiguous && Whole(s.size, unit)
    requires h.top in h.C && AddWrites(m, m1, m2, h, s)
    ensures var f, e := First(s), s.End() - TOP_FOOT_SIZE; var h' := WithRegion(Capped(h, First(segs[0])), f, e);
      && HeapOk(m2, b, h', k.(top := f, topsize := e - f), leastAddr,
                if h.C[h.top] < MIN_CHUNK_SIZE then {} else {h.top})
      && Laid(m2, h', leastAddr, WithSegment(h, segs, s), maps, granted, unit, noncontiguous)
      && Usable(h', maps) == Usable(h, maps) && Kept(m, Usable(h, maps), m2, Usable(h', maps), {})
      && (h.C[h.top] >= MIN_CHUNK_SIZE ==> h.top in h'.C && h'.C[h.top] == CapSize(h.C[h.top]))
      && SegTotal(WithSegment(h, segs, s)) == SegTotal(segs) + s.size
  {
    hide HeapOk, HasAll, MapsOk, TagsOk, Head, SegsOk, Kept, InitTop, AddWrites, WithSegment, NewBlock;
    AddedTotal(h, segs, s);
    AlignsUp(s.base);
    TagsIn(m, b, h, k, leastAddr, {});
    AddHeap(m, m1, m2, b, h, k, leastAddr, segs, maps, s);
    AddSpace(m, m1, m2, b, h, k, leastAddr, segs, maps, granted, s);
    var h' := WithRegion(Capped(h, First(segs[0])), First(s), s.End() - TOP_FOOT_SIZE);
    UsableKept(m, h, m2, h', maps);
    AddedKinds(h, segs, s, unit, noncontiguous);
  }

  lemma AddedKinds(h: Shape, segs: seq<Segment>, s: Segment, unit: nat, noncontiguous: bool)
    requires unit > 0 && Kinds(segs, unit, noncontiguous) && segs != [] && h.top in h.C
    requires s.mmapped ==> noncontiguous && Whole(s.size, unit)
    ensures Kinds(WithSegment(h, segs, s), unit, noncontiguous) && WithSegment(h, segs, s) != []
  {
    var t := WithSegment(h, segs, s);
    forall i | 0 <= i < |t| && t[i].mmapped ensures noncontiguous && Whole(t[i].size, unit) {
      if i > 0 { assert segs[i - 1].mmapped && t[i].size == segs[i - 1].size; }
    }
  }

  // ---------------------------------------------------------------------------------------
  // Heap operations

  /** A heap operation, with the space around it. */
  lemma StepAll(m: Mem, b: BinState, h: Shape, k: Marks, leastAddr: int, m': Mem, b': BinState, h': Shape,
                k': Marks, X: set<int>, segs: seq<Segment>, maps: Mappings, granted: set<int>, unit: nat,
                noncontiguous: bool, Y: set<int>, Y': set<int>)
    requires unit > 0 && HeapOk(m, b, h, k, leastAddr, Y) && HeapOk(m', b', h', k', leastAddr, Y')
      && Tame(m, h, m', h', X)
    requires Laid(m, h, leastAddr, segs, maps, granted, unit, noncontiguous)
    requires forall q | q in h'.U && q !in X :: q in h.U
    requires forall q | q in X && q in h.U :: Owned(h, q)
    ensures Laid(m', h', leastAddr, segs, maps, granted, unit, noncontiguous)
    ensures Kept(m, Usable(h, maps), m', Usable(h', maps), X)
  {
    hide HeapOk, TagsOk, SegsOk, MapsOk, HasAll, Tame, Usable, Kept;
    TagsIn(m, b, h, k, leastAddr, Y);
    TagsIn(m', b', h', k', leastAddr, Y');
    HeapStep(m, h, m', h', X, segs, maps, granted);
  }

  /** Where a fencepost goes. */
  function PostPlace(t: int, k: int): int {
    t + 8 + 8 * k
  }

  /** Fenceposts, in every word from the first behind t to the end. */
  ghost predicate Fenced(m: Mem, t: int, end: int) {
    forall k {:trigger PostPlace(t, k)} | 0 <= k && PostPlace(t, k) < end :: Rd(m, PostPlace(t, k)) == FENCEPOST_HEAD
  }

  lemma StillFenced(m: Mem, m': Mem, t: int, end: int)
    requires Fenced(m, t, end) && forall a {:trigger Rd(m', a)} | t + 8 <= a < end :: Rd(m', a) == Rd(m, a)
    ensures Fenced(m', t, end)
  {
  }

  /** The fenceposts keep within the segment just if it ends at a multiple of 8; otherwise the last of them reaches
      beyond the end. */
  lemma PostsKeepWithin(t: int, end: int)
    requires t % 16 == 0 && t + 32 <= end
    ensures (forall k {:trigger PostPlace(t, k)} | 0 <= k && PostPlace(t, k) < end :: PostPlace(t, k) + 8 <= end)
      <==> end % 8 == 0
    ensures PostPlace(t, 1) < end
  {
    var k := (end - t - 8) / 8;
    var r := end % 8;
    assert end == t + 8 + 8 * k + r;
    if r != 0 { assert PostPlace(t, k) == end - r; }
  }

  /** The places add_segment computes. */
  lemma RecordPlaces(oldEnd: int, oldTop: int, topsize: int)
    requires oldTop % 16 == 0 && topsize % 8 == 0 && oldTop + topsize == oldEnd - TOP_FOOT_SIZE
    ensures var rawsp := oldEnd - (48 + 32 + 15); rawsp + AlignOffset(rawsp + 16) == oldTop + CapSize(topsize)
    ensures topsize < MIN_CHUNK_SIZE <==> CapSize(topsize) < MIN_CHUNK_SIZE
  {
  }

  /** The tags behind a top that is too small to be a chunk. */
  lemma CapsSmall(m: Mem, m1: Mem, m2: Mem, t: int, s: int)
    requires m1 == SetSizeInuse(m, t, 48) && s < MIN_CHUNK_SIZE && Fenced(m2, t + 48, t + s + 80) && s >= 8
    requires forall a {:trigger Rd(m2, a)} | !(t + 56 <= a < t + s + 80) :: Rd(m2, a) == Rd(m1, a)
    ensures CapWrites(m, m2, t, s)
  {
    hide Head;
    assert Rd(m2, PostPlace(t + 48, 0)) == FENCEPOST_HEAD;
  }

  /** The tags behind a top that becomes an ordinary free chunk. */
  lemma CapsLarge(m: Mem, m1: Mem, m2: Mem, t: int, s: int)
    requires var c := CapSize(s); c <= s && c >= MIN_CHUNK_SIZE
    requires m1 == SetSizeInuse(m, t + CapSize(s), 48) && s >= MIN_CHUNK_SIZE
    requires forall a {:trigger Rd(m2, a)} | !(t + CapSize(s) + 56 <= a < t + s + 80) :: Rd(m2, a) == Rd(m1, a)
    requires Fenced(m2, t + CapSize(s) + 48, t + s + 80)
    ensures CapWrites(m, SetFreeWithPinuse(m2, t, CapSize(s), t + CapSize(s)), t, s)
  {
    hide CapSize;
    var c := CapSize(s);
    assert Rd(m2, PostPlace(t + c + 48, 0)) == FENCEPOST_HEAD;
    HeadWord(48, true, true);
    assert Head(48, true, true) == 51 && Head(48, false, true) == 50;
    var m3 := ClearPinuse(m2, t + c);
    assert Rd(m2, t + c + 8) == 51;
    assert Rd(m3, t + c + 8) == 50;
    var m4 := SetFreeWithPinuse(m2, t, c, t + c);
    assert Rd(m4, t + 8) == Head(c, true, false);
    assert Rd(m4, t + c) == c;
    assert Rd(m4, t + c + 8) == 50;
    assert Rd(m4, t + c + 56) == FENCEPOST_HEAD;
    forall a {:trigger Rd(m4, a)} | !(t + 8 <= a < t + s + 80) ensures Rd(m4, a) == Rd(m, a) {
      assert Rd(m2, a) == Rd(m1, a);
    }
  }

  /** The last tags that add_segment writes are before the fenceposts. */
  lemma SealWords(m: Mem, t: int, c: int, csp: int)
    requires csp == t + c
    ensures forall a {:trigger Rd(SetFreeWithPinuse(m, t, c, csp), a)} | a > csp + 8 && a > t + 8 ::
      Rd(SetFreeWithPinuse(m, t, c, csp), a) == Rd(m, a)
  {
  }

  lemma TopAligned(m: Mem, b: BinState, h: Shape, k: Marks, leastAddr: int, segs: seq<Segment>, maps: Mappings,
                   granted: set<int>, unit: nat, noncontiguous: bool)
    requires unit > 0 && HeapOk(m, b, h, k, leastAddr, {})
      && Laid(m, h, leastAddr, segs, maps, granted, unit, noncontiguous) && segs != []
    ensures h.top % 16 == 0 && h.top >= HEAP_MIN && k.top == h.top && h.top in h.C && k.topsize == h.C[h.top]
    ensures segs[0].base <= h.top && h.top + k.topsize == segs[0].End() - TOP_FOOT_SIZE && k.topsize >= 8
      && k.topsize % 8 == 0 && segs[0].End() % 8 == 0
  {
    hide HeapOk, SegsOk, MapsOk, HasAll, TagsOk;
    TopPlace(m, b, h, k, leastAddr, segs);
    HeadFacts(m, h, h.top);
    SegOf(h, segs, 0);
  }

  /** What add_segment leaves of the old segment of top, with top from t of s bytes, that ended at end: the free chunk
      that was top goes into a bin, unless it is too small, then come the record and fenceposts up to the end. */
  ghost predicate Sealed(m: Mem, b: BinState, h: Shape, t: int, s: int, end: int, at: int) {
    var r := if s < MIN_CHUNK_SIZE then t else t + CapSize(s);
    && at == r + 16 && r in h.C && h.C[r] == 48 && r in h.U && Fenced(m, r + 48, end)
    && (s >= MIN_CHUNK_SIZE ==> t in h.C && h.C[t] == CapSize(s) && t !in h.U && t in Binned(b))
  }

  /** The fenceposts behind the first are not in any region. */
  lemma FencesForeign(m: Mem, h: Shape, segs: seq<Segment>, maps: Mappings, s: Segment)
    requires TagsOk(m, h) && SegsOk(h, segs) && segs != [] && NewBlock(segs, maps, s.base, s.size) && h.top in h.C
    requires First(s) < s.End() - TOP_FOOT_SIZE
    ensures var h' := WithRegion(Capped(h, First(segs[0])), First(s), s.End() - TOP_FOOT_SIZE);
      forall a | RecordPlace(h) + 64 <= a < segs[0].End() :: Foreign(h', a)
  {
    hide TagsOk, SegsOk, CapSize, AlignAsChunk;
    TopMayCap(m, h, segs);
    CapPlaces(m, h, First(segs[0]));
    TopRegion(m, h, segs);
    AlignsUp(s.base);
    SegOf(h, segs, 0);
    assert BlocksApart(s.base, s.size, segs[0].base, segs[0].size);
    var h1, h' := Capped(h, First(segs[0])), WithRegion(Capped(h, First(segs[0])), First(s), s.End() - TOP_FOOT_SIZE);
    assert h1.R[First(segs[0])] == RecordPlace(h) + 48;
    forall a | RecordPlace(h) + 64 <= a < segs[0].End() ensures Foreign(h', a) {
      forall g | g in h'.R ensures !(g <= a < h'.R[g] + 16) {
        if g != First(s) { assert g in h.R; }
      }
    }
  }

  /** Binning the old top leaves record and fenceposts as they are. */
  lemma SealStays(m: Mem, h: Shape, segs: seq<Segment>, maps: Mappings, s: Segment, m1: Mem, m2: Mem, b2: BinState)
    requires TagsOk(m, h) && SegsOk(h, segs) && segs != [] && NewBlock(segs, maps, s.base, s.size) && h.top in h.C
    requires First(s) < s.End() - TOP_FOOT_SIZE && Fenced(m1, RecordPlace(h) + 48, segs[0].End())
    requires var h' := WithRegion(Capped(h, First(segs[0])), First(s), s.End() - TOP_FOOT_SIZE);
      Tame(m1, h', m2, h', {}) && TagsOk(m2, h') && (h.C[h.top] >= MIN_CHUNK_SIZE ==> h.top in Binned(b2))
    ensures Sealed(m2, b2, WithRegion(Capped(h, First(segs[0])), First(s), s.End() - TOP_FOOT_SIZE), h.top,
                   h.C[h.top], segs[0].End(), RecordPlace(h) + 16)
  {
    hide TagsOk, SegsOk, CapSize, Foreign, AlignAsChunk, Fenced;
    var f0, r := First(segs[0]), RecordPlace(h);
    var h' := WithRegion(Capped(h, f0), First(s), s.End() - TOP_FOOT_SIZE);
    FencesForeign(m, h, segs, maps, s);
    RecordThere(m, h, segs, maps, s);
    RegionFirst(m2, h', f0);
    assert Rd(m2, r + 56) == FENCEPOST_HEAD;
    FencesStay(m1, m2, h', r + 48, segs[0].End());
  }

  lemma FencesStay(m1: Mem, m2: Mem, h': Shape, t: int, end: int)
    requires Fenced(m1, t, end) && Rd(m2, t + 8) == FENCEPOST_HEAD
    requires forall a {:trigger Foreign(h', a)} | Foreign(h', a) :: Rd(m2, a) == Rd(m1, a)
    requires forall a | t + 16 <= a < end :: Foreign(h', a)
    ensures Fenced(m2, t, end)
  {
    hide Foreign;
    forall k {:trigger PostPlace(t, k)} | 0 <= k && PostPlace(t, k) < end
      ensures Rd(m2, PostPlace(t, k)) == FENCEPOST_HEAD {
      if k > 0 { assert Foreign(h', PostPlace(t, k)); }
    }
  }

  /** The record and what is left of the old top. */
  lemma RecordThere(m: Mem, h: Shape, segs: seq<Segment>, maps: Mappings, s: Segment)
    requires TagsOk(m, h) && SegsOk(h, segs) && segs != [] && NewBlock(segs, maps, s.base, s.size) && h.top in h.C
    requires First(s) < s.End() - TOP_FOOT_SIZE
    ensures var r, h' := RecordPlace(h), WithRegion(Capped(h, First(segs[0])), First(s), s.End() - TOP_FOOT_SIZE);
      && r in h'.C && h'.C[r] == 48 && r in h'.U
      && (h.C[h.top] >= MIN_CHUNK_SIZE ==>
            h.top in h'.C && h'.C[h.top] == CapSize(h.C[h.top]) && h.top !in h'.U)
      && First(segs[0]) in h'.R && h'.R[First(segs[0])] == r + 48
      && EndHead(h', r + 48) == FENCEPOST_HEAD
  {
    hide TagsOk, SegsOk, CapSize, AlignAsChunk;
    TopMayCap(m, h, segs);
    CapPlaces(m, h, First(segs[0]));
    TopRegion(m, h, segs);
    AlignsUp(s.base);
    SegOf(h, segs, 0);
    RegionFirst(m, h, First(segs[0]));
    AlignsUp(segs[0].base);
    assert BlocksApart(s.base, s.size, segs[0].base, segs[0].size);
  }

  lemma AddWritesAre(m: Mem, m1: Mem, m2: Mem, h: Shape, s: Segment)
    requires h.top in h.C && m1 == InitTop(m, First(s), s.End() - TOP_FOOT_SIZE) && CapWrites(m1, m2, h.top, h.C[h.top])
    ensures AddWrites(m, m1, m2, h, s)
  {
  }

  lemma AddedTotal(h: Shape, segs: seq<Segment>, s: Segment)
    requires h.top in h.C && segs != []
    ensures SegTotal(WithSegment(h, segs, s)) == SegTotal(segs) + s.size
  {
    var t := segs[0].(at := RecordPlace(h) + 16);
    assert WithSegment(h, segs, s) == [s] + ([t] + segs[1..]);
    SegTotalPush([t] + segs[1..], s);
    SegTotalPush(segs[1..], t);
  }

  lemma WithSegmentHas(h: Shape, segs: seq<Segment>, s: Segment)
    requires h.top in h.C && segs != []
    ensures var t := WithSegment(h, segs, s);
      |t| == |segs| + 1 && t[0] == s && t[1] == segs[0].(at := RecordPlace(h) + 16) && t[2..] == segs[1..]
  {
  }

  lemma FirstBeforeEnd(s: Segment)
    requires s.size >= SYS_ALLOC_PADDING + 16
    ensures First(s) < s.End() - TOP_FOOT_SIZE
  {
    AlignsUp(s.base);
  }

  lemma RecordSize()
    ensures PadRequest(32) == 48
  {
  }

  lemma OneWord(m: Mem, a: int, v: int)
    ensures var m' := m[a := v]; Rd(m', a) == v && forall x {:trigger Rd(m', x)} | x != a :: Rd(m', x) == Rd(m, x)
  {
  }

  // ---------------------------------------------------------------------------------------
  // What the caller gets

  /** The program has one more chunk, p, for a request of nb bytes with overhead. */
  predicate Gained(u: map<int, int>, u': map<int, int>, p: int, nb: int) {
    p % 16 == 0 && p > 0 && p !in u && p in u' && u' == u[p := u'[p]] && nb - 8 <= u'[p]
  }

  /** A request was served from the heap. */
  lemma ServedAll(m: Mem, b: BinState, h: Shape, k: Marks, leastAddr: int, m': Mem, b': BinState, h': Shape, k': Marks,
                  segs: seq<Segment>, maps: Mappings, granted: set<int>, unit: nat, noncontiguous: bool,
                    p: int, nb: int)
    requires unit > 0 && HeapOk(m, b, h, k, leastAddr, {}) && HeapOk(m', b', h', k', leastAddr, {})
      && Served(m, h, m', h', p, nb)
    requires Laid(m, h, leastAddr, segs, maps, granted, unit, noncontiguous)
    ensures Laid(m', h', leastAddr, segs, maps, granted, unit, noncontiguous)
    ensures Gained(Usable(h, maps), Usable(h', maps), p, nb) && Usable(h', maps)[p] < nb + 24 && p !in maps
    ensures Kept(m, Usable(h, maps), m', Usable(h', maps), {})
  {
    hide HeapOk, TagsOk, SegsOk, MapsOk, HasAll, OwnedMap, Usable, Tame, Head;
    TagsIn(m, b, h, k, leastAddr, {});
    TagsIn(m', b', h', k', leastAddr, {});
    TameLess(m, h, m', h', {}, {p});
    StepAll(m, b, h, k, leastAddr, m', b', h', k', {p}, segs, maps, granted, unit, noncontiguous, {}, {});
    OwnedGain(m, h, m', h', p);
    assert p !in maps by { if p in maps { MapNoChunk(m, h, maps, segs, p); } }
    UsableWith(h, h', maps, p, h'.C[p] - 8);
    NotUsable(h, maps, p);
    HeadFacts(m, h, p);
  }

  lemma NotUsable(h: Shape, maps: Mappings, p: int)
    requires p !in OwnedMap(h) && p !in maps
    ensures p !in Usable(h, maps)
  {
  }

  lemma NewIsHigh(segs: seq<Segment>, maps: Mappings, base: int, n: int)
    requires NewBlock(segs, maps, base, n)
    ensures base >= HEAP_MIN
  {
  }

  /** The allocator may think of a lower address as its least. */
  lemma LowerAll(m: Mem, b: BinState, h: Shape, k: Marks, leastAddr: int, least': int, segs: seq<Segment>,
                 maps: Mappings, granted: set<int>, unit: nat, noncontiguous: bool)
    requires unit > 0 && HeapOk(m, b, h, k, leastAddr, {})
      && Laid(m, h, leastAddr, segs, maps, granted, unit, noncontiguous) && 0 < least' <= leastAddr
    ensures HeapOk(m, b, h, k, least', {}) && Laid(m, h, least', segs, maps, granted, unit, noncontiguous)
  {
    hide HeapOk, SpaceOk;
    LowerLeast(m, b, h, k, leastAddr, least', {});
  }

  /** Only the first segment holds top. */
  lemma OnlyTopSegment(m: Mem, b: BinState, h: Shape, k: Marks, leastAddr: int, segs: seq<Segment>, maps: Mappings,
                       granted: set<int>, i: nat)
    requires HeapOk(m, b, h, k, leastAddr, {}) && SpaceOk(m, h, segs, maps, granted) && i < |segs|
      && SegHolds(segs[i], h.top)
    ensures i == 0
  {
    hide HeapOk, TagsOk, MapsOk, HasAll, SegsOk;
    TopPlace(m, b, h, k, leastAddr, segs);
    ApartSegs(h, segs);
    if i > 0 { var apart := BlocksApart(segs[0].base, segs[0].size, segs[i].base, segs[i].size); }
  }

  lemma TopSegmentHolds(m: Mem, b: BinState, h: Shape, k: Marks, leastAddr: int, segs: seq<Segment>)
    requires HeapOk(m, b, h, k, leastAddr, {}) && SegsOk(h, segs) && segs != []
    ensures SegHolds(segs[0], h.top) && k.top == h.top && k.top != 0
  {
    hide HeapOk, TagsOk, SegsOk;
    TopPlace(m, b, h, k, leastAddr, segs);
  }

  // ---------------------------------------------------------------------------------------
  // Memory that ends at an address that is no multiple of 8

  /** Top begins at an aligned address, so its size is a multiple of 8 just if the new memory ends at one. */
  lemma TopSizeOf(base: int, n: int)
    ensures var topsize := base + n - TOP_FOOT_SIZE - AlignAsChunk(base);
      (topsize % 8 == 0 <==> (base + n) % 8 == 0) && topsize % 8 == (base + n) % 8
  {
    AlignsUp(base);
  }

  /** The head word of a top whose size is not a multiple of 8, as the code reads it: CINUSE looks set if the size
      is 2 or 3 modulo 4, do_check_top_chunk finds the size of top only if it is a multiple of 4, and if it is,
      add_segment will let the last fencepost reach beyond the end of the segment. */
  ghost predicate Misread(m: Mem, top: int, topsize: int, end: int) {
    var w := Rd(m, top + 8);
    && (Cinuse(w) <==> topsize % 4 >= 2) && (w - w % 4 == topsize <==> topsize % 4 == 0)
    && ChunkSize(w) != topsize && end % 8 != 0
  }

  lemma Misreads(m: Mem, top: int, topsize: int, end: int)
    requires Rd(m, top + 8) == WithPinuse(topsize) && topsize % 8 != 0
    requires top % 16 == 0 && end == top + topsize + TOP_FOOT_SIZE
    ensures Misread(m, top, topsize, end)
  {
    var q, d := topsize / 8, topsize % 8;
    assert topsize == 8 * q + d;
    FlagsOf(q, d);
  }

  lemma FlagsOf(q: int, d: int)
    requires 0 < d < 8
    ensures var s := 8 * q + d; var w := WithPinuse(s);
      && (Cinuse(w) <==> d % 4 >= 2) && (w - w % 4 == s <==> d % 4 == 0) && ChunkSize(w) != s && s % 4 == d % 4
  {
    LowBits(q, d);
    if d % 2 == 0 { LowBits(q, d + 1); }
  }

  lemma LowBits(q: int, e: int)
    requires 0 <= e < 8
    ensures var w := 8 * q + e; w % 8 == e && w % 4 == e % 4 && w % 2 == e % 2 && (w / 2) % 2 == (e / 2) % 2
  {
    Bits(q, 8, e);
    var f, g := if e >= 4 then 1 else 0, if e % 4 >= 2 then 1 else 0;
    Bits(2 * q + f, 4, e - 4 * f);
    Bits(4 * q + 2 * f + g, 2, e - 4 * f - 2 * g);
    Bits(2 * q + f, 2, g);
  }

  /** A chunk that ends where such a top begins is freed: the branch for a next chunk in use clears the PINUSE bit of
      top, which do_check_top_chunk asks for. */
  lemma FreedBeforeTop(m: Mem, p: int, psize: int, topsize: int)
    requires psize >= MIN_CHUNK_SIZE && Rd(m, p + psize + 8) == WithPinuse(topsize) && topsize % 4 >= 2
    ensures Cinuse(Rd(m, p + psize + 8)) && Pinuse(Rd(m, p + psize + 8))
    ensures !Pinuse(Rd(SetFreeWithPinuse(m, p, psize, p + psize), p + psize + 8))
  {
    var q, d := topsize / 8, topsize % 8;
    FlagsOf(q, d);
  }

  /** The old top of a heap whose new top does not count as a region. */
  lemma CapOnly(m: Mem, m1: Mem, m2: Mem, b: BinState, h: Shape, k: Marks, leastAddr: int,
                segs: seq<Segment>, maps: Mappings, granted: set<int>, unit: nat, noncontiguous: bool,
                base: int, n: int)
    requires unit > 0 && HeapOk(m, b, h, k, leastAddr, {})
      && Laid(m, h, leastAddr, segs, maps, granted, unit, noncontiguous)
    requires segs != [] && NewBlock(segs, maps, base, n) && h.top in h.C && CapWrites(m1, m2, h.top, h.C[h.top])
    requires forall a {:trigger Rd(m1, a)} | !(base <= a < base + n) :: Rd(m1, a) == Rd(m, a)
    ensures var X := if h.C[h.top] < MIN_CHUNK_SIZE then {} else {h.top};
      HeapOk(m2, b, Capped(h, First(segs[0])), k.(top := 0, topsize := 0), leastAddr, X)
    ensures h.C[h.top] >= MIN_CHUNK_SIZE ==>
      h.top in Capped(h, First(segs[0])).C && Capped(h, First(segs[0])).C[h.top] == CapSize(h.C[h.top])
  {
    hide HeapOk, HasAll, MapsOk, TagsOk, SegsOk, NewBlock, CapWrites, MayCap;
    TagsIn(m, b, h, k, leastAddr, {});
    NewIsForeign(m, h, segs, maps, base, n);
    NewIsHigh(segs, maps, base, n);
    ElsewhereHeap(m, m1, b, h, k, leastAddr, {});
    TopMayCap(m, h, segs);
    CapHeap(m1, m2, b, h, k, leastAddr, First(segs[0]));
  }

  /** The words of a new top lie in the new memory. */
  lemma TopWordsInside(m: Mem, base: int, n: int, w: int)
    requires n >= SYS_ALLOC_PADDING + 16
    ensures var p, e := AlignAsChunk(base), base + n - TOP_FOOT_SIZE;
      forall a {:trigger Rd(m[p + 8 := w][e + 8 := TOP_FOOT_SIZE], a)} | !(base <= a < base + n) ::
        Rd(m[p + 8 := w][e + 8 := TOP_FOOT_SIZE], a) == Rd(m, a)
  {
    AlignsUp(base);
  }

  lemma NewTopSize(base: int, n: int, top: int, topsize: int)
    requires top == AlignAsChunk(base) && top + topsize == base + n - TOP_FOOT_SIZE
    ensures topsize % 8 == (base + n) % 8 && topsize + SYS_ALLOC_PADDING > n
  {
    AlignsUp(base);
    TopSizeOf(base, n);
  }

  lemma AddedEights(topsize: int, base: int, n: int)
    requires topsize % 8 == 0 && base % 8 == 0 && n % 16 == 0
    ensures (topsize + n) % 8 == 0 && (base + n) % 8 == 0 && n % 8 == 0
  {
  }

  /** Memory that ends where such a segment begins goes in front of it. */
  predicate Prepends(segs: seq<Segment>, end: int, mmapped: bool) {
    exists i :: 0 <= i < |segs| && segs[i].base == end && segs[i].mmapped == mmapped
  }

  lemma NonePrepends(end: int, mmapped: bool)
    ensures !Prepends([], end, mmapped)
  {
  }

  /** Two segments do not begin at one address. */
  lemma OneStart(m: Mem, b: BinState, h: Shape, k: Marks, leastAddr: int, segs: seq<Segment>, maps: Mappings,
                 granted: set<int>, unit: nat, noncontiguous: bool, a: int, i: nat, mmapped: bool)
    requires unit > 0 && HeapOk(m, b, h, k, leastAddr, {})
      && Laid(m, h, leastAddr, segs, maps, granted, unit, noncontiguous)
    requires i <= |segs| && (i < |segs| ==> segs[i].base == a)
      && (i == |segs| ==> forall j | 0 <= j < |segs| :: segs[j].base != a)
    ensures Prepends(segs, a, mmapped) <==> i < |segs| && segs[i].mmapped == mmapped
  {
    hide HeapOk, SegsOk, MapsOk, HasAll, TagsOk;
    TagsIn(m, b, h, k, leastAddr, {});
    HeldIsSized(m, h, segs, maps);
    ApartSegs(h, segs);
    if Prepends(segs, a, mmapped) && i < |segs| {
      var j :| 0 <= j < |segs| && segs[j].base == a && segs[j].mmapped == mmapped;
    }
  }

  /** While top is served from, or the heap is in order, top is aligned. */
  lemma PlacedTop(m: Mem, b: BinState, h: Shape, k: Marks, leastAddr: int)
    ensures HeapOk(m, b, h, k, leastAddr, {}) ==> k.topsize % 8 == 0
  {
    hide HeapOk;
    if HeapOk(m, b, h, k, leastAddr, {}) { TopSize(m, b, h, k, leastAddr, {}); }
  }

  /** CapOnly, for the words that add_segment writes. */
  lemma OldTopCapped(m: Mem, m1: Mem, m2: Mem, b: BinState, h: Shape, k: Marks, leastAddr: int,
                     segs: seq<Segment>, maps: Mappings, granted: set<int>, unit: nat, noncontiguous: bool,
                     base: int, n: int, w: int)
    requires unit > 0 && HeapOk(m, b, h, k, leastAddr, {})
      && Laid(m, h, leastAddr, segs, maps, granted, unit, noncontiguous)
    requires segs != [] && NewBlock(segs, maps, base, n) && h.top in h.C && CapWrites(m1, m2, h.top, h.C[h.top])
      && n >= SYS_ALLOC_PADDING + 16
    requires m1 == m[AlignAsChunk(base) + 8 := w][base + n - TOP_FOOT_SIZE + 8 := TOP_FOOT_SIZE]
    ensures var h1 := Capped(h, First(segs[0]));
      && Core(m2, b, h1, leastAddr)
      && (h.C[h.top] >= MIN_CHUNK_SIZE ==>
          h.top in h1.C && h1.C[h.top] == CapSize(h.C[h.top]) && Binnable(b, h1, h.top))
  {
    hide HeapOk, NewBlock, CapWrites, Capped, Laid, Core, Binnable, AlignAsChunk;
    TopWordsInside(m, base, n, w);
    CapOnly(m, m1, m2, b, h, k, leastAddr, segs, maps, granted, unit, noncontiguous, base, n);
    var X := if h.C[h.top] < MIN_CHUNK_SIZE then {} else {h.top};
    HeapBinsOk(m2, b, Capped(h, First(segs[0])), k.(top := 0, topsize := 0), leastAddr, X);
    if h.C[h.top] >= MIN_CHUNK_SIZE {
      MayBeBinned(m2, b, Capped(h, First(segs[0])), k.(top := 0, topsize := 0), leastAddr, X, h.top);
    }
  }

  /** AddAll, as add_segment comes to it. */
  lemma NewTop(m: Mem, m1: Mem, m2: Mem, b: BinState, h: Shape, k: Marks, leastAddr: int,
               segs: seq<Segment>, maps: Mappings, granted: set<int>, unit: nat, noncontiguous: bool,
               s: Segment)
    requires unit > 0 && HeapOk(m, b, h, k, leastAddr, {})
      && Laid(m, h, leastAddr, segs, maps, granted, unit, noncontiguous)
    requires segs != [] && s.at == 0 && NewBlock(segs, maps, s.base, s.size) && s.End() % 8 == 0
      && Has(granted, s.base, s.size)
    requires leastAddr <= s.base && s.size >= SYS_ALLOC_PADDING + 16
      && (s.mmapped ==> noncontiguous && Whole(s.size, unit))
    requires h.top in h.C && m1 == InitTop(m, First(s), s.End() - TOP_FOOT_SIZE) && CapWrites(m1, m2, h.top, h.C[h.top])
    ensures var f, e := First(s), s.End() - TOP_FOOT_SIZE; var h' := WithRegion(Capped(h, First(segs[0])), f, e);
      var segs' := WithSegment(h, segs, s);
      && HeapOk(m2, b, h', k.(top := f, topsize := e - f), leastAddr,
                if h.C[h.top] < MIN_CHUNK_SIZE then {} else {h.top})
      && Laid(m2, h', leastAddr, segs', maps, granted, unit, noncontiguous)
      && Usable(h', maps) == Usable(h, maps) && Kept(m, Usable(h, maps), m2, Usable(h', maps), {})
      && Core(m2, b, h', leastAddr)
      && (h.C[h.top] >= MIN_CHUNK_SIZE ==>
          h.top in h'.C && h'.C[h.top] == CapSize(h.C[h.top]) && Binnable(b, h', h.top))
      && SegTotal(segs') == SegTotal(segs) + s.size
  {
    hide *;
    AddWritesAre(m, m1, m2, h, s);
    AddAll(m, m1, m2, b, h, k, leastAddr, segs, maps, granted, unit, noncontiguous, s);
    var f, e := First(s), s.End() - TOP_FOOT_SIZE;
    var h', k' := WithRegion(Capped(h, First(segs[0])), f, e), k.(top := f, topsize := e - f);
    var X := if h.C[h.top] < MIN_CHUNK_SIZE then {} else {h.top};
    HeapBinsOk(m2, b, h', k', leastAddr, X);
    if h.C[h.top] >= MIN_CHUNK_SIZE { MayBeBinned(m2, b, h', k', leastAddr, X, h.top); }
  }
}
