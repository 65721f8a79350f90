/** Chunks with a mapping of their own (malloc.c, "Direct-mmapping chunks"): heap, space and the memory of the
    program when one is made, moved, cut at its front or given back. */
module MappedChunks {
  import opened Words
  import opened ChunkMemory
  import opened AllBins
  import opened Chunks
  import opened HeapInvariant
  import opened Regions
  import opened Segments
  import opened System
  import opened Payloads
  import opened SpaceSteps
  import opened Spaces
  import opened HeapFacts
  import opened Requests
  import opened Installing
  const SIX_SIZE_T_SIZES: int := 48

  /** The words of a new mapped chunk. */
  function MmapTags(m: Mem, p: int, offset: int, psize: int): Mem {
    m[p := offset][p + 8 := psize][p + psize + 8 := FENCEPOST_HEAD][p + psize + 16 := 0]
  }

  /** The mapped chunk that mmap_alloc makes. */
  lemma NewMapOk(m: Mem, base: int, n: int, nb: int)
    requires base % 16 == 0 && n % 16 == 0 && nb + SIX_SIZE_T_SIZES + 15 <= n && nb >= MIN_CHUNK_SIZE
      && HEAP_MIN <= base && base + n <= LIMIT
    ensures AlignOffset(base + 16) == 0
    ensures MapOk(MmapTags(m, base, 0, n - MMAP_FOOT_PAD), base, Mapping(base, n))
  {
  }

  /** mmap_alloc */
  lemma MapAll(m: Mem, b: BinState, h: Shape, k: Marks, leastAddr: int, segs: seq<Segment>, maps: Mappings,
               granted: set<int>, granted': set<int>, unit: nat, noncontiguous: bool, base: int, n: int,
               nb: int, least': int)
    requires unit > 0 && HeapOk(m, b, h, k, leastAddr, {})
      && Laid(m, h, leastAddr, segs, maps, granted, unit, noncontiguous) && segs != []
    requires Got(granted, granted', base, n) && base % 16 == 0 && n % 16 == 0 && nb + SIX_SIZE_T_SIZES + 15 <= n
      && nb >= MIN_CHUNK_SIZE
    requires LeastFor(leastAddr, base, least')
    ensures AlignOffset(base + 16) == 0
    ensures var m', maps' := MmapTags(m, base, 0, n - MMAP_FOOT_PAD), maps[base := Mapping(base, n)];
      && HeapOk(m', b, h, k, least', {}) && Laid(m', h, least', segs, maps', granted', unit, noncontiguous)
      && Gained(Usable(h, maps), Usable(h, maps'), base, nb) && base !in maps && MapTotal(maps') == MapTotal(maps) + n
      && Kept(m, Usable(h, maps), m', Usable(h, maps'), {})
  {
    hide HeapOk, TagsOk, SegsOk, HasAll, Usable, Kept, MapOk, NewBlock, AlignOffset;
    var m', x := MmapTags(m, base, 0, n - MMAP_FOOT_PAD), Mapping(base, n);
    TagsIn(m, b, h, k, leastAddr, {});
    NewMapOk(m, base, n, nb);
    GotBlock(m, h, segs, maps, granted, granted', base, n);
    MapAdded(m, m', h, segs, maps, granted, granted', base, x);
    NewIsForeign(m, h, segs, maps, base, n);
    ElsewhereHeap(m, m', b, h, k, leastAddr, {});
    LowerLeast(m', b, h, k, leastAddr, least', {});
    MapTotalAdd(maps, base, x);
  }

  // ---------------------------------------------------------------------------------------
  // mmap_resize

  /** The size of a mapping for a chunk of nb bytes, and 0 or less than nb if it cannot be. */
  function MapSize(nb: nat, page: nat): nat
    requires page > 0
  {
    RoundTo(Wrap(nb + SIX_SIZE_T_SIZES + 15), page)
  }

  /** mmap_resize keeps a chunk where it is if it is large enough, but not too large. */
  predicate KeepsMap(oldsize: int, nb: nat, granularity: nat) {
    oldsize >= nb + 8 && oldsize - nb <= 2 * granularity
  }

  /** The chunk keeps its offset from the start of the mapping, so the new mapping must have room for that, too. */
  predicate RoomBehind(offset: int, nb: nat, page: nat)
    requires page > 0
  {
    var n := MapSize(nb, page); n == 0 || offset + nb + 8 + MMAP_FOOT_PAD <= n
  }

  /** What mmap_resize needs of the offset.  (A mapped chunk gets an offset of 32 or more from memalign.) */
  predicate MayRemap(oldsize: int, offset: int, nb: nat, p: Params)
    requires p.page > 0
  {
    nb < 256 || KeepsMap(oldsize, nb, p.granularity) || RoomBehind(offset, nb, p.page)
  }

  /** Chunks as mmap_alloc makes them always have room. */
  lemma SmallOffset(offset: int, nb: nat, page: nat)
    requires 4096 <= page <= LIMIT && page % 16 == 0 && nb < WORD - 64 && 0 <= offset <= 23
    ensures RoomBehind(offset, nb, page)
  {
    RoundUpOrWrap(nb + SIX_SIZE_T_SIZES + 15, page);
  }

  /** memalign(1 MB, 1 MB), served by a mapping, and then realloc to 400000 bytes, with pages of 4 KB and a granularity
      of 64 KB: the chunk begins behind the end of its new mapping. */
  lemma NoRoom()
    ensures var align, page, p := 0x10_0000, 4096, Params(4096, 65536, 262144, 2097152);
      var req := SizeFor(align) + align + MIN_CHUNK_SIZE - CHUNK_OVERHEAD;
      var base := 0x4000_0000;
      var x := Mapping(base, MapSize(SizeFor(req), page));
      var c, nb := AlignUp(base + 16, align) - 16, SizeFor(400000);
      && base < c && base % 4096 == 0 && !Aligned(base + 16, align) && c - base >= MIN_CHUNK_SIZE
      && x.ChunkBytes(c) >= SizeFor(align)
      && !MayRemap(x.ChunkBytes(c), c - base, nb, p) && c > base + MapSize(nb, page) > base
  {
    assert SizeFor(0x10_0000) == 0x10_0010;
    assert SizeFor(0x20_0028) == 0x20_0030;
    assert SizeFor(400000) == 400016;
    assert MapSize(0x20_0030, 4096) == 0x20_1000;
    assert MapSize(400016, 4096) == 401408;
    assert AlignUp(0x4000_0010, 0x10_0000) == 0x4010_0000;
  }

  /** The words of a resized mapped chunk.  Where psize is negative, so that its head wraps around, the
      addresses do so, too. */
  function ResizeTags(m: Mem, p: int, psize: int): Mem {
    m[p + 8 := Wrap(psize)][p + psize + 8 := FENCEPOST_HEAD][p + psize + 16 := 0]
  }

  lemma ResizeTagsOnly(m: Mem, p: int, psize: int)
    requires 8 < psize < WORD
    ensures var m' := ResizeTags(m, p, psize);
      && Rd(m', p + 8) == psize && Rd(m', p + psize + 8) == FENCEPOST_HEAD
      && forall a {:trigger Rd(m', a)} | a != p + 8 && a != p + psize + 8
      && a != p + psize + 16 :: Rd(m', a) == Rd(m, a)
  {
  }

  /** What MREMAP did to the memory. */
  ghost predicate Remapped(m: Mem, m1: Mem, x: Mapping, base: int, n: int) {
    if base == x.base then m1 == m else Copied(m, m1, x.base, base, if x.size < n then x.size else n)
  }

  /** The mapped chunk after MREMAP. */
  lemma RemapOk(m: Mem, m1: Mem, c: int, x: Mapping, base: int, n: int, nb: int)
    requires MapOk(m, c, x) && Remapped(m, m1, x, base, n) && HEAP_MIN <= base && base + n <= LIMIT
    requires base % 16 == 0 && n % 16 == 0 && nb >= MIN_CHUNK_SIZE && (c - x.base) + nb + 8 + MMAP_FOOT_PAD <= n
    ensures var c' := base + (c - x.base); var m' := ResizeTags(m1, c', n - (c - x.base) - MMAP_FOOT_PAD);
      && MapOk(m', c', Mapping(base, n))
      && (forall a {:trigger Rd(m', a)} | !(base <= a < base + n) :: Rd(m', a) == Rd(m, a))
      && SameBytes(m, c, m', c', Min(x.ChunkBytes(c), Mapping(base, n).ChunkBytes(c')) - MMAP_CHUNK_OVERHEAD)
  {
    hide ResizeTags;
    var offset := c - x.base;
    var c', psize := base + offset, n - offset - MMAP_FOOT_PAD;
    ResizeTagsOnly(m1, c', psize);
    OffsetOf16(base, x.base, c, n);
  }

  /** mmap_resize from g0 and m0 to g and m, where the new mapping has no room for nb bytes behind the offset: the
      process has the new mapping for the old one, its last words and the head of newp are written, but what the
      caller gets reaches the fencepost or leaves the mapping, and the tags are not those of a chunk that is large
      enough. */
  ghost predicate Misplaced(m0: Mem, g0: set<int>, c: int, x0: Mapping, m: Mem, g: set<int>, newp: int, nb: nat,
                            page: nat)
    requires page > 0
  {
    var base, n := newp - (c - x0.base), MapSize(nb, page);
    var fence, psize := base + n - 24, base + n - newp - MMAP_FOOT_PAD;
    && n > 0 && New(g0 - Bytes(x0.base, x0.size), base, n) && g == g0 - Bytes(x0.base, x0.size) + Bytes(base, n)
    && Rd(m, fence) == FENCEPOST_HEAD && Rd(m, newp + 8) == (if psize == 0 then FENCEPOST_HEAD else Wrap(psize))
    && (forall a {:trigger Rd(m, a)} | !(base <= a < base + n) && a != newp + 8 :: Rd(m, a) == Rd(m0, a))
    && newp + 16 + (nb - 8) >= fence
    && (forall x {:trigger MapOk(m, newp, x)} | MapOk(m, newp, x) :: x.ChunkBytes(newp) < nb + 8)
  }

  lemma Misplaces(m0: Mem, m1: Mem, g0: set<int>, c: int, x0: Mapping, base: int, nb: nat, page: nat)
    requires page > 0 && MapOk(m0, c, x0) && Remapped(m0, m1, x0, base, MapSize(nb, page))
    requires New(g0 - Bytes(x0.base, x0.size), base, MapSize(nb, page)) && !RoomBehind(c - x0.base, nb, page)
    requires base % 16 == 0 && MapSize(nb, page) % 16 == 0 && nb % 16 == 0 && MapSize(nb, page) >= 32
    ensures var newp, n := base + (c - x0.base), MapSize(nb, page);
      Misplaced(m0, g0, c, x0, ResizeTags(m1, newp, n - (c - x0.base) - MMAP_FOOT_PAD),
                g0 - Bytes(x0.base, x0.size) + Bytes(base, n), newp, nb, page)
  {
    hide MapSize, New, Bytes, ResizeTags, Remapped;
    NewPlace(g0 - Bytes(x0.base, x0.size), base, MapSize(nb, page));
    var newp, n := base + (c - x0.base), MapSize(nb, page);
    var psize := n - (c - x0.base) - MMAP_FOOT_PAD;
    OffsetOf16(base, x0.base, c, n);
    var m := ResizeTags(m1, newp, psize);
    ResizeWords(m1, newp, psize);
    RemappedElse(m0, m1, x0, base, n);
    forall x {:trigger MapOk(m, newp, x)} | MapOk(m, newp, x) ensures x.ChunkBytes(newp) < nb + 8 {
      HeadTells(m, newp, x, psize);
    }
  }

  lemma ResizeWords(m: Mem, p: int, psize: int)
    requires psize % 16 == 0
    ensures var m' := ResizeTags(m, p, psize);
      && Rd(m', p + 8) == (if psize == 0 then FENCEPOST_HEAD else Wrap(psize))
      && Rd(m', p + psize + 8) == FENCEPOST_HEAD
      && forall a {:trigger Rd(m', a)} | a != p + 8 && !(p + psize + 8 <= a < p + psize + 17) :: Rd(m', a) == Rd(m, a)
  {
  }

  lemma RemappedElse(m: Mem, m1: Mem, x: Mapping, base: int, n: int)
    requires Remapped(m, m1, x, base, n)
    ensures forall a {:trigger Rd(m1, a)} | !(base <= a < base + n) :: Rd(m1, a) == Rd(m, a)
  {
  }

  /** A mapped chunk at newp has the size in its head. */
  lemma HeadTells(m: Mem, newp: int, x: Mapping, psize: int)
    requires MapOk(m, newp, x) && Rd(m, newp + 8) == if psize == 0 then FENCEPOST_HEAD else Wrap(psize)
    requires -LIMIT < psize < LIMIT && HEAP_MIN <= newp
    ensures x.ChunkBytes(newp) == psize
  {
  }

  lemma OffsetOf16(base: int, start: int, c: int, n: int)
    requires c % 16 == 0 && start % 16 == 0 && base % 16 == 0 && n % 16 == 0
    ensures (base + (c - start)) % 16 == 0 && (n - (c - start) - MMAP_FOOT_PAD) % 16 == 0
  {
  }

  /** mmap_resize: heap, space and the memory of the program. */
  lemma RemapAll(m: Mem, m1: Mem, b: BinState, h: Shape, k: Marks, leastAddr: int, segs: seq<Segment>, maps: Mappings,
                 granted: set<int>, unit: nat, noncontiguous: bool, c: int, base: int, n: int, nb: int, least': int)
    requires unit > 0 && HeapOk(m, b, h, k, leastAddr, {})
      && Laid(m, h, leastAddr, segs, maps, granted, unit, noncontiguous) && c in maps
    requires New(granted - Bytes(maps[c].base, maps[c].size), base, n) && Remapped(m, m1, maps[c], base, n)
    requires base % 16 == 0 && n % 16 == 0 && nb >= MIN_CHUNK_SIZE && (c - maps[c].base) + nb + 8 + MMAP_FOOT_PAD <= n
    requires least' == if base < leastAddr then base else leastAddr
    ensures var c', x := base + (c - maps[c].base), Mapping(base, n);
      var m', maps', u := ResizeTags(m1, c', x.ChunkBytes(c')), (maps - {c})[c' := x], Usable(h, maps);
      && HeapOk(m', b, h, k, least', {})
      && Laid(m', h, least', segs, maps', granted - Bytes(maps[c].base, maps[c].size) + Bytes(base, n),
              unit, noncontiguous)
      && c' !in maps - {c} && c' !in u - {c}
      && Usable(h, maps') == (u - {c})[c' := x.ChunkBytes(c') - MMAP_CHUNK_OVERHEAD]
      && Kept(m, u, m', Usable(h, maps'), {c}) && MapTotal(maps') == MapTotal(maps) - maps[c].size + n
      && c' % 16 == 0 && c' > 0
  {
    hide HeapOk, TagsOk, SegsOk, HasAll, Usable, Kept, ResizeTags, NewBlock, Remapped, Got, Bytes, MapTotal, New;
    var x0 := maps[c];
    var c', x := base + (c - x0.base), Mapping(base, n);
    var m', maps1, g1 := ResizeTags(m1, c', x.ChunkBytes(c')), maps - {c}, granted - Bytes(x0.base, x0.size);
    var u, maps' := Usable(h, maps), maps1[c' := x];
    TagsIn(m, b, h, k, leastAddr, {});
    NewPlace(granted - Bytes(x0.base, x0.size), base, n);
    RemapOk(m, m1, c, x0, base, n, nb);
    MapRemoved(m, h, segs, maps, granted, c);
    GotAtOnce(g1, base, n);
    GotBlock(m, h, segs, maps1, g1, g1 + Bytes(base, n), base, n);
    MapAdded(m, m', h, segs, maps1, g1, g1 + Bytes(base, n), c', x);
    assert HeapOk(m', b, h, k, least', {}) by {
      NewIsForeign(m, h, segs, maps1, base, n);
      ElsewhereHeap(m, m', b, h, k, leastAddr, {});
      LowerLeast(m', b, h, k, leastAddr, least', {});
    }
    MapTotalRemove(maps, c);
    MapTotalAdd(maps1, c', x);
    KeptAfter(m, u, m, Usable(h, maps1), m', Usable(h, maps'), {c});
  }

  /** Sizes of mappings are aligned. */
  lemma MapSizeOf16(nb: nat, page: nat)
    requires 4096 <= page <= LIMIT && page % 16 == 0
    ensures MapSize(nb, page) % 16 == 0 && (MapSize(nb, page) > 0 ==> MapSize(nb, page) >= page)
  {
    UnitAtLeast(MapSize(nb, page), page);
    RoundUpOrWrap(Wrap(nb + SIX_SIZE_T_SIZES + 15), page);
    SixteenOf(MapSize(nb, page), page);
  }

  lemma UnitAtLeast(x: nat, unit: nat)
    requires unit > 0
    ensures x > 0 && x % unit == 0 ==> x >= unit
  {
  }

  lemma NewPlace(granted: set<int>, base: int, n: int)
    requires New(granted, base, n)
    ensures HEAP_MIN <= base && base + n <= LIMIT
  {
  }
}
