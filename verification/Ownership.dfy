/** The entry points as the program sees them: which chunks are its own before and after a call, and that the
    contents of all others stay. */
module Ownership {
  import opened Words
  import opened ChunkMemory
  import opened AllBins
  import opened Chunks
  import opened HeapState
  import opened HeapInvariant
  import opened HeapFacts
  import opened Freeing
  import opened Resizing
  import opened Tiling
  import opened Regions
  import opened Segments
  import opened System
  import opened Payloads
  import opened SpaceSteps
  import opened Spaces
  import opened Installing
  import opened Requests
  import opened MappedChunks
  import opened Alignments
  import TreeState

  // ---------------------------------------------------------------------------------------
  // Chunks in use and chunks of the program

  lemma OwnGained(u: map<int, int>, u': map<int, int>, lost: set<int>, p: int, nb: int)
    requires Gained(u, u', p, nb) && lost <= u.Keys
    ensures Gained(u - lost, u' - lost, p, nb) && u'[p] == (u' - lost)[p] && p !in lost
  {
    assert p !in lost;
    EqualIfSame(u' - lost, (u - lost)[p := u'[p]]);
  }

  lemma OwnKept(m: Mem, u: map<int, int>, m': Mem, u': map<int, int>, X: set<int>, lost: set<int>)
    requires Kept(m, u, m', u', X)
    ensures Kept(m, u - lost, m', u' - lost, X)
  {
    forall q, a {:trigger Payload(u - lost, q, a)} | Payload(u - lost, q, a) && q !in X ensures Rd(m', a) == Rd(m, a) {
      assert Payload(u, q, a);
    }
  }

  lemma OwnLess(u: map<int, int>, u': map<int, int>, lost: set<int>, p: int)
    requires u' == u - {p}
    ensures u' - lost == (u - lost) - {p}
  {
    EqualIfSame(u' - lost, (u - lost) - {p});
  }

  lemma OwnMoved(u: map<int, int>, u': map<int, int>, lost: set<int>, p: int, q: int, s: int)
    requires u' == (u - {p})[q := s] && p !in lost && q !in lost
    ensures u' - lost == ((u - lost) - {p})[q := s]
  {
    EqualIfSame(u' - lost, ((u - lost) - {p})[q := s]);
  }

  /** A chunk that is freed in vain is lost. */
  lemma OwnLost(u: map<int, int>, lost: set<int>, p: int)
    ensures u - (lost + {p}) == (u - lost) - {p}
  {
    EqualIfSame(u - (lost + {p}), (u - lost) - {p});
  }

  lemma LostInUse(h: Shape, maps: Mappings, lost: set<int>)
    requires LostOk(lost, maps)
    ensures lost <= Usable(h, maps).Keys
  {
    forall c | c in lost ensures c in Usable(h, maps) { assert c in MappedMap(maps); }
  }

  // ---------------------------------------------------------------------------------------
  // Kinds of chunks

  /** A chunk of the program is one of the heap, or mapped. */
  lemma OwnerKind(m: Mem, h: Shape, segs: seq<Segment>, maps: Mappings, lost: set<int>, p: int)
    requires TagsOk(m, h) && SegsOk(h, segs) && MapsOk(m, maps, segs) && p in Usable(h, maps) - lost
    ensures p in maps || Owned(h, p)
    ensures p in maps ==> p !in h.C && Usable(h, maps)[p] == maps[p].ChunkBytes(p) - MMAP_CHUNK_OVERHEAD
    ensures p !in maps ==> Usable(h, maps)[p] == h.C[p] - 8
  {
    hide TagsOk, SegsOk, MapsOk;
    if p in maps { MapNoChunk(m, h, maps, segs, p); }
  }

  /** What the head of a mapped chunk says. */
  lemma MappedTags(m: Mem, segs: seq<Segment>, maps: Mappings, c: int, leastAddr: int)
    requires MapsOk(m, maps, segs) && c in maps && MapsAbove(maps, leastAddr)
    ensures var w, x := Rd(m, c + 8), maps[c];
      && c >= leastAddr && w == x.ChunkBytes(c) && ChunkSize(w) == w && IsInuse(w) && IsMmapped(w) && !Pinuse(w)
      && w >= MIN_CHUNK_SIZE && Pinuse(Rd(m, c + w + 8))
      && c - Rd(m, c) == x.base && w + Rd(m, c) + MMAP_FOOT_PAD == x.size && c % 16 == 0 && c > 0 && w % 16 == 0
  {
    assert MapOk(m, c, maps[c]);
    SixteenBits(Rd(m, c + 8));
  }

  lemma SixteenBits(w: int)
    requires w % 16 == 0
    ensures ChunkSize(w) == w && IsInuse(w) && IsMmapped(w) && !Pinuse(w)
  {
    FlagBits(2 * (w / 16), 0);
  }

  // ---------------------------------------------------------------------------------------
  // Heap operations

  /** A chunk of the heap was freed. */
  lemma FreedAll(m: Mem, b: BinState, h: Shape, k: Marks, leastAddr: int, m': Mem, b': BinState, h': Shape, k': Marks,
                 segs: seq<Segment>, maps: Mappings, granted: set<int>, unit: nat, noncontiguous: bool, p: int)
    requires unit > 0 && HeapOk(m, b, h, k, leastAddr, {}) && HeapOk(m', b', h', k', leastAddr, {})
      && Tame(m, h, m', h', {p})
    requires Laid(m, h, leastAddr, segs, maps, granted, unit, noncontiguous) && Owned(h, p) && h'.U == h.U - {p}
    ensures Laid(m', h', leastAddr, segs, maps, granted, unit, noncontiguous)
    ensures Usable(h', maps) == Usable(h, maps) - {p} && Kept(m, Usable(h, maps), m', Usable(h', maps), {p})
  {
    hide HeapOk, TagsOk, SegsOk, MapsOk, HasAll, OwnedMap, Usable, Kept, Tame;
    TagsIn(m, b, h, k, leastAddr, {});
    TagsIn(m', b', h', k', leastAddr, {});
    StepAll(m, b, h, k, leastAddr, m', b', h', k', {p}, segs, maps, granted, unit, noncontiguous, {}, {});
    OwnedLoss(m, h, m', h', p);
    assert p !in maps by { if p in maps { MapNoChunk(m, h, maps, segs, p); } }
    UsableWithout(h, h', maps, p);
  }

  /** A chunk of the heap was resized. */
  lemma ResizedAll(m: Mem, b: BinState, h: Shape, k: Marks, leastAddr: int, m': Mem, b': BinState, h': Shape, k': Marks,
                   segs: seq<Segment>, maps: Mappings, granted: set<int>, unit: nat,
                     noncontiguous: bool, p: int, q: int)
    requires unit > 0 && HeapOk(m, b, h, k, leastAddr, {}) && HeapOk(m', b', h', k', leastAddr, {})
      && Tame(m, h, m', h', {p})
    requires Laid(m, h, leastAddr, segs, maps, granted, unit, noncontiguous) && Owned(h, p) && Owned(h', q)
    requires h'.U == h.U - {p} + {q} && (q == p || q !in h.U)
    ensures Laid(m', h', leastAddr, segs, maps, granted, unit, noncontiguous)
    ensures Usable(h', maps) == (Usable(h, maps) - {p})[q := h'.C[q] - 8]
      && Kept(m, Usable(h, maps), m', Usable(h', maps), {p})
    ensures p !in maps && q !in maps
  {
    hide HeapOk, TagsOk, SegsOk, MapsOk, HasAll, OwnedMap, Usable, Kept, Tame, Owned;
    TagsIn(m, b, h, k, leastAddr, {});
    TagsIn(m', b', h', k', leastAddr, {});
    MoreTame(m, h, m', h', p, q);
    StepAll(m, b, h, k, leastAddr, m', b', h', k', {p, q}, segs, maps, granted, unit, noncontiguous, {}, {}) by {
      assert q in h.U ==> q == p;
    }
    OwnedMoved(m, h, m', h', p, q);
    OwnedIs(h, p);
    OwnedIs(h', q);
    assert p !in maps by { if p in maps { MapNoChunk(m, h, maps, segs, p); } }
    assert q !in maps by { if q in maps { MapNoChunk(m', h', maps, segs, q); } }
    UsableMoved(h, h', maps, p, q, h'.C[q] - 8);
    KeptLess(m, h, m', h', maps, p, q);
  }

  lemma MoreTame(m: Mem, h: Shape, m': Mem, h': Shape, p: int, q: int)
    requires Tame(m, h, m', h', {p})
    ensures Tame(m, h, m', h', {p, q})
  {
    TameLess(m, h, m', h', {p}, {p, q});
  }

  lemma UsableMoved(h: Shape, h': Shape, maps: Mappings, p: int, q: int, s: int)
    requires OwnedMap(h') == (OwnedMap(h) - {p})[q := s] && p !in maps && q !in maps
    ensures Usable(h', maps) == (Usable(h, maps) - {p})[q := s]
  {
    hide OwnedMap;
    EqualIfSame(Usable(h', maps), (Usable(h, maps) - {p})[q := s]);
  }

  lemma KeptLess(m: Mem, h: Shape, m': Mem, h': Shape, maps: Mappings, p: int, q: int)
    requires Kept(m, Usable(h, maps), m', Usable(h', maps), {p, q}) && (q == p || q !in h.U) && q !in maps
    ensures Kept(m, Usable(h, maps), m', Usable(h', maps), {p})
  {
    if q != p { assert q !in Usable(h, maps); }
  }

  // ---------------------------------------------------------------------------------------
  // Mapped chunks

  /** A mapped chunk was unmapped. */
  lemma UnmappedAll(m: Mem, b: BinState, h: Shape, k: Marks, leastAddr: int, segs: seq<Segment>, maps: Mappings,
                    granted: set<int>, unit: nat, noncontiguous: bool, lost: set<int>, c: int)
    requires unit > 0 && HeapOk(m, b, h, k, leastAddr, {})
      && Laid(m, h, leastAddr, segs, maps, granted, unit, noncontiguous)
    requires c in maps && c !in lost && LostOk(lost, maps)
    ensures Laid(m, h, leastAddr, segs, maps - {c}, granted - Bytes(maps[c].base, maps[c].size), unit, noncontiguous)
    ensures Usable(h, maps - {c}) == Usable(h, maps) - {c} && Kept(m, Usable(h, maps), m, Usable(h, maps - {c}), {c})
    ensures LostOk(lost, maps - {c}) && MapTotal(maps - {c}) == MapTotal(maps) - maps[c].size
  {
    hide HeapOk, TagsOk, SegsOk, MapsOk, HasAll, Usable, Kept;
    TagsIn(m, b, h, k, leastAddr, {});
    MapRemoved(m, h, segs, maps, granted, c);
    MapTotalRemove(maps, c);
    assert segs != [] || maps == map[];
  }

  // ---------------------------------------------------------------------------------------
  // Requests

  lemma SizeForKinds(bytes: nat)
    requires bytes < WORD
    ensures var nb := SizeFor(bytes); (nb % 16 == 0 && MIN_CHUNK_SIZE <= nb < WORD) || nb == MAX_SIZE_T
    ensures bytes >= MAX_REQUEST <==> SizeFor(bytes) == MAX_SIZE_T
  {
    if bytes < MAX_REQUEST { SizeForFits(bytes); } else { TooLarge(bytes); }
  }

  lemma GainedFits(u: map<int, int>, u': map<int, int>, p: int, bytes: nat)
    requires bytes < MAX_REQUEST && Gained(u, u', p, SizeFor(bytes))
    ensures bytes <= u'[p]
  {
    SizeForFits(bytes);
  }

  lemma MappedSize(m: Mem, h: Shape, leastAddr: int, segs: seq<Segment>, maps: Mappings, granted: set<int>, unit: nat,
                   noncontiguous: bool, c: int)
    requires unit > 0 && Laid(m, h, leastAddr, segs, maps, granted, unit, noncontiguous) && c in maps
    ensures maps[c].size > 0
  {
    assert MapOk(m, c, maps[c]);
  }

  /** What the entry points find out about a chunk from its head. */
  lemma KindOf(m: Mem, b: BinState, h: Shape, k: Marks, leastAddr: int, segs: seq<Segment>, maps: Mappings,
               granted: set<int>, unit: nat, noncontiguous: bool, lost: set<int>, p: int)
    requires unit > 0 && HeapOk(m, b, h, k, leastAddr, {})
      && Laid(m, h, leastAddr, segs, maps, granted, unit, noncontiguous)
    requires p in Usable(h, maps) - lost
    ensures p >= leastAddr && IsInuse(Rd(m, p + 8)) && p > 0 && p % 16 == 0 && p !in lost && Usable(h, maps)[p] >= 16
    ensures IsMmapped(Rd(m, p + 8)) <==> p in maps
    ensures p !in maps ==> Owned(h, p) && ChunkSize(Rd(m, p + 8)) == h.C[p] && Usable(h, maps)[p] == h.C[p] - 8
    ensures p in maps ==>
      ChunkSize(Rd(m, p + 8)) == maps[p].ChunkBytes(p)
      && Usable(h, maps)[p] == maps[p].ChunkBytes(p) - MMAP_CHUNK_OVERHEAD
    ensures var size := ChunkSize(Rd(m, p + 8)); size > 0 && Pinuse(Rd(m, p + size + 8))
  {
    hide HeapOk, SegsOk, MapsOk, HasAll, TagsOk, Usable, ChunkSize, IsInuse, IsMmapped, Pinuse, Owned, Binned;
    TagsIn(m, b, h, k, leastAddr, {});
    OwnerKind(m, h, segs, maps, lost, p);
    if p in maps {
      MappedTags(m, segs, maps, p, leastAddr);
    } else {
      NeighbourFacts(m, b, h, k, leastAddr, p);
    }
  }

  /** A chunk of the program became another one, or was resized; it may hold so many bytes, and its contents
      are there as far as they fit. */
  ghost predicate Moved(m: Mem, u: map<int, int>, m': Mem, u': map<int, int>, p: int, q: int, bytes: int) {
    && p in u && q > 0 && q % 16 == 0 && (q == p || q !in u) && q in u' && bytes <= u'[q] && u' == (u - {p})[q := u'[q]]
    && SameBytes(m, p, m', q, Min(u[p], bytes)) && Kept(m, u, m', u', {p})
  }

  lemma MovedOwn(m: Mem, u: map<int, int>, m': Mem, u': map<int, int>, p: int, q: int, bytes: int, lost: set<int>)
    requires Moved(m, u, m', u', p, q, bytes) && p !in lost && lost <= u.Keys
    ensures Moved(m, u - lost, m', u' - lost, p, q, bytes) && (u' - lost)[q] == u'[q]
  {
    hide Kept, SameBytes;
    assert q !in lost;
    OwnMoved(u, u', lost, p, q, u'[q]);
    OwnKept(m, u, m', u', {p}, lost);
  }

  /** A mapped chunk after mmap_resize. */
  lemma RemapMoved(m: Mem, m1: Mem, h: Shape, maps: Mappings, m': Mem, maps': Mappings, c: int, base: int,
                   n: int, nb: int)
    requires c in maps && MapOk(m, c, maps[c]) && Remapped(m, m1, maps[c], base, n) && HEAP_MIN <= base
      && base + n <= LIMIT
    requires base % 16 == 0 && n % 16 == 0 && nb >= MIN_CHUNK_SIZE && (c - maps[c].base) + nb + 8 + MMAP_FOOT_PAD <= n
    requires var c' := base + (c - maps[c].base);
      && m' == ResizeTags(m1, c', Mapping(base, n).ChunkBytes(c')) && c' !in Usable(h, maps) - {c} && c !in OwnedMap(h)
      && Usable(h, maps') == (Usable(h, maps) - {c})[c' := Mapping(base, n).ChunkBytes(c') - MMAP_CHUNK_OVERHEAD]
      && c' > 0 && c' % 16 == 0
    requires Kept(m, Usable(h, maps), m', Usable(h, maps'), {c})
    ensures Moved(m, Usable(h, maps), m', Usable(h, maps'), c, base + (c - maps[c].base), nb - 8)
  {
    hide Kept, ResizeTags, Remapped, OwnedMap;
    RemapOk(m, m1, c, maps[c], base, n, nb);
    var u, c' := Usable(h, maps), base + (c - maps[c].base);
    assert c in MappedMap(maps);
    assert u[c] == maps[c].ChunkBytes(c) - MMAP_CHUNK_OVERHEAD;
    var had := c' in u - {c};
  }

  /** A chunk of the heap was resized where it is. */
  lemma ResizedMoved(m: Mem, h: Shape, maps: Mappings, m': Mem, h': Shape, p: int, nb: int)
    requires Owned(h, p) && Owned(h', p) && p !in maps && nb <= h'.C[p] && p > 0 && p % 16 == 0
    requires Usable(h', maps) == (Usable(h, maps) - {p})[p := h'.C[p] - 8]
      && Kept(m, Usable(h, maps), m', Usable(h', maps), {p})
    requires Preserved(m, m', p, if nb < h.C[p] then nb else h.C[p])
    ensures Moved(m, Usable(h, maps), m', Usable(h', maps), p, p, nb - 8)
  {
    hide Kept;
    var n := if nb < h.C[p] then nb else h.C[p];
    assert p in OwnedMap(h);
    assert Usable(h, maps)[p] == h.C[p] - 8;
  }

  lemma NotMoved(m: Mem, u: map<int, int>, p: int, bytes: int)
    requires p in u && p > 0 && p % 16 == 0 && bytes <= u[p]
    ensures Moved(m, u, m, u, p, p, bytes)
  {
    EqualIfSame(u, (u - {p})[p := u[p]]);
  }

  // ---------------------------------------------------------------------------------------
  // The program writes

  /** Only payload words of the chunk q differ. */
  ghost predicate Written(m: Mem, m': Mem, u: map<int, int>, q: int) {
    forall a {:trigger Rd(m', a)} | !Payload(u, q, a) :: Rd(m', a) == Rd(m, a)
  }

  /** What the program writes to its own chunks, the allocator does not notice. */
  lemma WrittenAll(m: Mem, m': Mem, b: BinState, h: Shape, k: Marks, leastAddr: int, segs: seq<Segment>,
                   maps: Mappings, granted: set<int>, unit: nat, noncontiguous: bool, lost: set<int>, q: int)
    requires unit > 0 && HeapOk(m, b, h, k, leastAddr, {})
      && Laid(m, h, leastAddr, segs, maps, granted, unit, noncontiguous)
    requires q in Usable(h, maps) - lost && Written(m, m', Usable(h, maps), q)
    ensures HeapOk(m', b, h, k, leastAddr, {}) && Laid(m', h, leastAddr, segs, maps, granted, unit, noncontiguous)
    ensures Kept(m, Usable(h, maps), m', Usable(h, maps), {q})
  {
    hide HeapOk, TagsOk, SegsOk, MapsOk, HasAll, Kept, Written, Usable, Owned;
    TagsIn(m, b, h, k, leastAddr, {});
    OwnerKind(m, h, segs, maps, lost, q);
    if q in maps {
      WrittenMap(m, m', h, segs, maps, q);
      NewLikeForeign(m, h, segs, maps, q);
      ElsewhereHeap(m, m', b, h, k, leastAddr, {});
      WrittenMaps(m, m', h, segs, maps, q);
    } else {
      OwnedIs(h, q);
      WrittenOwn(m, m', h, maps, q);
      StoredHeap(m, m', b, h, k, leastAddr, q);
      TagsIn(m', b, h, k, leastAddr, {});
      StoredTame(m, m', h, q);
      HeapStep(m, h, m', h, {q}, segs, maps, granted);
    }
    WrittenKept(m, m', h, segs, maps, q);
  }

  lemma WrittenMap(m: Mem, m': Mem, h: Shape, segs: seq<Segment>, maps: Mappings, q: int)
    requires MapsOk(m, maps, segs) && q in maps && Written(m, m', Usable(h, maps), q)
    ensures forall a {:trigger Rd(m', a)} | !(q + 16 <= a < q + maps[q].ChunkBytes(q)) :: Rd(m', a) == Rd(m, a)
  {
    forall a {:trigger Rd(m', a)} | !(q + 16 <= a < q + maps[q].ChunkBytes(q)) ensures Rd(m', a) == Rd(m, a) {
      assert q in MappedMap(maps);
      assert !Payload(Usable(h, maps), q, a);
    }
  }

  lemma NewLikeForeign(m: Mem, h: Shape, segs: seq<Segment>, maps: Mappings, q: int)
    requires SegsOk(h, segs) && MapsOk(m, maps, segs) && q in maps
    ensures forall a | q <= a < q + maps[q].ChunkBytes(q) :: a >= HEAP_MIN && Foreign(h, a)
  {
    hide SegsOk;
    assert MapOk(m, q, maps[q]);
    MapOutside(m, maps, segs, q);
    forall a | q <= a < q + maps[q].ChunkBytes(q) ensures Foreign(h, a) {
      OutsideForeign(m, h, segs, maps[q].base, maps[q].End(), a);
    }
  }

  lemma WrittenMaps(m: Mem, m': Mem, h: Shape, segs: seq<Segment>, maps: Mappings, q: int)
    requires MapsOk(m, maps, segs) && q in maps
    requires forall a {:trigger Rd(m', a)} | !(q + 16 <= a < q + maps[q].ChunkBytes(q)) :: Rd(m', a) == Rd(m, a)
    ensures MapsOk(m', maps, segs)
  {
    forall c | c in maps ensures MapOk(m', c, maps[c]) {
      assert MapOk(m, c, maps[c]) && MapOk(m, q, maps[q]);
      if c != q { assert BlocksApart(maps[c].base, maps[c].size, maps[q].base, maps[q].size); }
    }
  }

  lemma WrittenOwn(m: Mem, m': Mem, h: Shape, maps: Mappings, q: int)
    requires q !in maps && q in h.C && q in h.U && Written(m, m', Usable(h, maps), q)
    ensures OnlyPayload(m, m', h, q)
  {
    forall a {:trigger Rd(m', a)} | !LiveWord(h, q, a) ensures Rd(m', a) == Rd(m, a) {
      assert !Payload(Usable(h, maps), q, a);
    }
  }

  lemma StoredTame(m: Mem, m': Mem, h: Shape, q: int)
    requires TagsOk(m, h) && OnlyPayload(m, m', h, q)
    ensures Tame(m, h, m', h, {q})
  {
    hide TagsOk;
    forall x, a {:trigger LiveWord(h, x, a)} | LiveWord(h, x, a) && x != q ensures Rd(m', a) == Rd(m, a) {
      if LiveWord(h, q, a) { LiveApart(m, h, x, q, a); }
    }
    forall a {:trigger Foreign(h, a)} | Foreign(h, a) ensures Rd(m', a) == Rd(m, a) {
      if LiveWord(h, q, a) { LiveNotForeign(m, h, q, a); }
    }
  }

  /** A word belongs to one payload only. */
  lemma LiveApart(m: Mem, h: Shape, x: int, q: int, a: int)
    requires TagsOk(m, h) && LiveWord(h, x, a) && LiveWord(h, q, a)
    ensures x == q
  {
    hide ChunkOk, RegionOk;
    HeadFacts(m, h, x);
    HeadFacts(m, h, q);
  }

  lemma LiveNotForeign(m: Mem, h: Shape, q: int, a: int)
    requires TagsOk(m, h) && LiveWord(h, q, a)
    ensures !Foreign(h, a)
  {
    hide ChunkOk, RegionOk, TreeState.Apart;
    var f :| Inside(h, q, f);
  }

  /** Payloads do not overlap. */
  lemma PayloadsApart(m: Mem, h: Shape, segs: seq<Segment>, maps: Mappings, p: int, q: int, a: int)
    requires TagsOk(m, h) && SegsOk(h, segs) && MapsOk(m, maps, segs) && Payload(Usable(h, maps), p, a)
      && Payload(Usable(h, maps), q, a)
    ensures p == q
  {
    hide TagsOk, SegsOk, MapsOk, OwnedMap;
    if p in maps {
      PayloadInMap(m, h, segs, maps, p, a);
      if q in maps {
        PayloadInMap(m, h, segs, maps, q, a);
        if p != q { MapsOneByOne(m, maps, segs, p, q); }
      } else {
        OwnedNotInMap(m, h, segs, maps, q, p, a);
      }
    } else if q in maps {
      PayloadInMap(m, h, segs, maps, q, a);
      OwnedNotInMap(m, h, segs, maps, p, q, a);
    } else {
      OwnedPayload(h, p, a);
      OwnedPayload(h, q, a);
      LiveApart(m, h, p, q, a);
    }
  }

  lemma PayloadInMap(m: Mem, h: Shape, segs: seq<Segment>, maps: Mappings, p: int, a: int)
    requires MapsOk(m, maps, segs) && p in maps && Payload(Usable(h, maps), p, a)
    ensures maps[p].base <= a < maps[p].End()
  {
    hide OwnedMap;
    assert p in MappedMap(maps);
    MappedPayload(h, maps, p, a);
  }

  lemma MapsOneByOne(m: Mem, maps: Mappings, segs: seq<Segment>, p: int, q: int)
    requires MapsOk(m, maps, segs) && p in maps && q in maps && p != q
    ensures maps[p].End() <= maps[q].base || maps[q].End() <= maps[p].base
  {
    assert BlocksApart(maps[p].base, maps[p].size, maps[q].base, maps[q].size);
  }

  lemma OwnedNotInMap(m: Mem, h: Shape, segs: seq<Segment>, maps: Mappings, q: int, c: int, a: int)
    requires TagsOk(m, h) && SegsOk(h, segs) && MapsOk(m, maps, segs) && q !in maps && c in maps
      && Payload(Usable(h, maps), q, a)
    ensures !(maps[c].base <= a < maps[c].End())
  {
    hide TagsOk, SegsOk, MapsOk, OwnedMap;
    assert Payload(OwnedMap(h), q, a);
    OwnedPayload(h, q, a);
    assert q in h.C;
    var i := ChunkHeld(m, h, segs, q);
    MapOutside(m, maps, segs, c);
  }

  lemma WrittenKept(m: Mem, m': Mem, h: Shape, segs: seq<Segment>, maps: Mappings, q: int)
    requires TagsOk(m, h) && SegsOk(h, segs) && MapsOk(m, maps, segs) && Written(m, m', Usable(h, maps), q)
    ensures Kept(m, Usable(h, maps), m', Usable(h, maps), {q})
  {
    hide TagsOk, SegsOk, MapsOk, Usable;
    var u := Usable(h, maps);
    forall x, a {:trigger Payload(u, x, a)} | Payload(u, x, a) && x != q ensures Rd(m', a) == Rd(m, a) {
      if Payload(u, q, a) { PayloadsApart(m, h, segs, maps, x, q, a); }
    }
  }

  lemma OwnSize(u: map<int, int>, lost: set<int>, p: int)
    requires p in u - lost
    ensures p in u && (u - lost)[p] == u[p]
  {
  }

  lemma RemapLost(m: Mem, m1: Mem, b: BinState, h: Shape, k: Marks, leastAddr: int, segs: seq<Segment>, maps: Mappings,
                  granted: set<int>, unit: nat, noncontiguous: bool, lost: set<int>, m': Mem, maps': Mappings, c: int,
                  base: int, n: int, nb: int)
    requires unit > 0 && HeapOk(m, b, h, k, leastAddr, {})
      && Laid(m, h, leastAddr, segs, maps, granted, unit, noncontiguous)
    requires c in maps && c !in lost && LostOk(lost, maps) && Remapped(m, m1, maps[c], base, n)
    requires New(granted - Bytes(maps[c].base, maps[c].size), base, n)
    requires base % 16 == 0 && n % 16 == 0 && nb >= MIN_CHUNK_SIZE && (c - maps[c].base) + nb + 8 + MMAP_FOOT_PAD <= n
    requires var c', x := base + (c - maps[c].base), Mapping(base, n);
      && m' == ResizeTags(m1, c', x.ChunkBytes(c')) && maps' == (maps - {c})[c' := x] && c' !in Usable(h, maps) - {c}
      && Usable(h, maps') == (Usable(h, maps) - {c})[c' := x.ChunkBytes(c') - MMAP_CHUNK_OVERHEAD]
      && c' > 0 && c' % 16 == 0
    requires Kept(m, Usable(h, maps), m', Usable(h, maps'), {c})
    ensures LostOk(lost, maps')
    ensures Moved(m, Usable(h, maps) - lost, m', Usable(h, maps') - lost, c, base + (c - maps[c].base), nb - 8)
  {
    hide HeapOk, TagsOk, SegsOk, HasAll, Kept, Usable, ResizeTags, Remapped, Moved, OwnedMap;
    TagsIn(m, b, h, k, leastAddr, {});
    MapNoChunk(m, h, maps, segs, c);
    NewPlace(granted - Bytes(maps[c].base, maps[c].size), base, n);
    NotOwned(m, h, maps, segs, c) by { assert c in MappedMap(maps); }
    RemapMoved(m, m1, h, maps, m', maps', c, base, n, nb);
    LostInUse(h, maps, lost);
    MovedOwn(m, Usable(h, maps), m', Usable(h, maps'), c, base + (c - maps[c].base), nb - 8, lost);
  }

  /** The payloads of different chunks do not overlap, so memcpy may be used. */
  lemma ApartCopies(m: Mem, b: BinState, h: Shape, k: Marks, leastAddr: int, segs: seq<Segment>, maps: Mappings,
                    granted: set<int>, unit: nat, noncontiguous: bool, p: int, q: int, n: nat)
    requires unit > 0 && HeapOk(m, b, h, k, leastAddr, {})
      && Laid(m, h, leastAddr, segs, maps, granted, unit, noncontiguous)
    requires p in Usable(h, maps) && q in Usable(h, maps) && p != q && n <= Usable(h, maps)[p]
      && n <= Usable(h, maps)[q]
    ensures p + n <= q || q + n <= p
  {
    hide HeapOk, TagsOk, SegsOk, MapsOk, HasAll, Usable;
    TagsIn(m, b, h, k, leastAddr, {});
    if p < q < p + n {
      var had := Payload(Usable(h, maps), p, q + 16) && Payload(Usable(h, maps), q, q + 16);
      PayloadsApart(m, h, segs, maps, p, q, q + 16);
    } else if q < p < q + n {
      var had := Payload(Usable(h, maps), p, p + 16) && Payload(Usable(h, maps), q, p + 16);
      PayloadsApart(m, h, segs, maps, q, p, p + 16);
    }
  }

  lemma RequestSize(bytes: nat)
    requires bytes < MAX_REQUEST
    ensures Request2Size(bytes) == SizeFor(bytes)
  {
  }

  lemma StillOwned(m: Mem, u: map<int, int>, m': Mem, u': map<int, int>, p: int)
    requires Kept(m, u, m', u', {}) && p in u
    ensures p in u' && u'[p] == u[p]
  {
  }

  /** malloc, memcpy and free together move a chunk. */
  lemma MovedByCopy(m0: Mem, u0: map<int, int>, m1: Mem, u1: map<int, int>, m2: Mem, m3: Mem, u3: map<int, int>,
                    p: int, q: int, bytes: nat)
    requires p in u0 && q !in u0 && q in u1 && q > 0 && q % 16 == 0 && bytes <= u1[q] && u1 == u0[q := u1[q]]
    requires Kept(m0, u0, m1, u1, {}) && Kept(m1, u1, m2, u1, {q}) && SameBytes(m1, p, m2, q, Min(u1[p], bytes))
    requires Kept(m2, u1, m3, u3, {p}) && u3 == u1 - {p}
    ensures Moved(m0, u0, m3, u3, p, q, bytes)
  {
    EqualIfSame(u3, (u0 - {p})[q := u3[q]]);
    forall a {:trigger Rd(m3, a)} | q + 16 <= a < q + 16 + Min(u0[p], bytes) ensures Rd(m3, a) == Rd(m0, a - q + p) {
      assert Payload(u1, q, a);
      assert Rd(m2, a) == Rd(m1, a - q + p);
      assert Payload(u0, p, a - q + p);
    }
    forall x, a {:trigger Payload(u0, x, a)} | Payload(u0, x, a) && x != p ensures Rd(m3, a) == Rd(m0, a) {
      assert Payload(u1, x, a);
    }
  }

  // ---------------------------------------------------------------------------------------
  // memalign

  lemma UseFromMap(m: Mem, h: Shape)
    requires TagsOk(m, h)
    ensures h.U == UsedMap(h).Keys
  {
    hide ChunkOk, RegionOk, TreeState.Apart;
  }

  lemma PlacedUse(m: Mem, h: Shape, m': Mem, h': Shape, p0: int, p: int, nb: int)
    requires TagsOk(m, h) && TagsOk(m', h') && Placed(h, p0, h', p, nb)
    ensures h'.U == h.U - {p0} + {p}
  {
    hide TagsOk, UsedMap;
    UseFromMap(m, h);
    UseFromMap(m', h');
  }

  /** The aligned chunk inside a chunk of the heap. */
  lemma PlacedAll(m: Mem, b: BinState, h: Shape, k: Marks, leastAddr: int, m': Mem, b': BinState, h': Shape, k': Marks,
                  segs: seq<Segment>, maps: Mappings, granted: set<int>, unit: nat, noncontiguous: bool, p0: int,
                    p: int, nb: int)
    requires unit > 0 && HeapOk(m, b, h, k, leastAddr, {}) && HeapOk(m', b', h', k', leastAddr, {})
      && Tame(m, h, m', h', {p0})
    requires Laid(m, h, leastAddr, segs, maps, granted, unit, noncontiguous) && Owned(h, p0) && Placed(h, p0, h', p, nb)
    ensures Laid(m', h', leastAddr, segs, maps, granted, unit, noncontiguous) && p in h'.C && nb <= h'.C[p]
    ensures p == p0 || p !in Usable(h, maps)
    ensures Usable(h', maps) == (Usable(h, maps) - {p0})[p := h'.C[p] - 8]
      && Kept(m, Usable(h, maps), m', Usable(h', maps), {p0})
  {
    hide HeapOk, TagsOk, SegsOk, MapsOk, HasAll, Kept, Tame, UsedMap;
    TagsIn(m, b, h, k, leastAddr, {});
    TagsIn(m', b', h', k', leastAddr, {});
    PlacedUse(m, h, m', h', p0, p, nb);
    ResizedAll(m, b, h, k, leastAddr, m', b', h', k', segs, maps, granted, unit, noncontiguous, p0, p);
  }

  /** A new chunk gave way to one at an aligned place inside it. */
  lemma AlignedGain(m0: Mem, u0: map<int, int>, m1: Mem, u1: map<int, int>, m2: Mem, u2: map<int, int>, p0: int,
                    p: int, nb: int)
    requires p0 !in u0 && p0 in u1 && u1 == u0[p0 := u1[p0]] && Kept(m0, u0, m1, u1, {}) && Kept(m1, u1, m2, u2, {p0})
    requires (p == p0 || p !in u1) && p in u2 && u2 == (u1 - {p0})[p := u2[p]] && nb - 8 <= u2[p]
      && p > 0 && p % 16 == 0
    ensures Gained(u0, u2, p, nb) && Kept(m0, u0, m2, u2, {})
  {
    EqualIfSame(u2, u0[p := u2[p]]);
    KeptFresh(m0, u0, m1, u1, m2, u2, p0);
  }

  // ---------------------------------------------------------------------------------------
  // memalign in a mapped chunk

  /** The words of a mapped chunk that begins later than before. */
  function LeadTags(m: Mem, p: int, offset: int, size: int): Mem {
    m[p := offset][p + 8 := size]
  }

  function Rekeyed(maps: Mappings, c: int, c': int): Mappings
    requires c in maps
  {
    (maps - {c})[c' := maps[c]]
  }

  lemma LeadMaps(m: Mem, m': Mem, h: Shape, segs: seq<Segment>, maps: Mappings, c: int, lead: int)
    requires TagsOk(m, h) && SegsOk(h, segs) && MapsOk(m', maps, segs) && MapsOk(m, maps, segs) && c in maps
      && lead % 16 == 0 && 32 <= lead
    requires lead + 32 <= maps[c].ChunkBytes(c)
    requires m' == LeadTags(m, c + lead, Rd(m, c) + lead, maps[c].ChunkBytes(c) - lead)
    ensures var c' := c + lead;
      && c' !in maps && c' !in h.C && MapsOk(m', Rekeyed(maps, c, c'), segs)
      && maps[c].ChunkBytes(c') == maps[c].ChunkBytes(c) - lead
  {
    hide TagsOk, SegsOk;
    var c', maps' := c + lead, Rekeyed(maps, c, c + lead);
    assert MapOk(m, c, maps[c]) && MapOk(m', c, maps[c]);
    assert c' !in maps by { if c' in maps { MapHolds(m, segs, maps, c'); MapsOneByOne(m, maps, segs, c, c'); } }
    LeadNoChunk(m, h, segs, maps, c, c');
    LeadMapOk(m, c, maps[c], lead);
    forall d | d in maps' ensures MapOk(m', d, maps'[d]) {
      if d != c' { assert MapOk(m', d, maps[d]); }
    }
    forall d, e | d in maps' && e in maps' && d != e
      ensures BlocksApart(maps'[d].base, maps'[d].size, maps'[e].base, maps'[e].size) {
      var x, y := if d == c' then c else d, if e == c' then c else e;
      assert BlocksApart(maps[x].base, maps[x].size, maps[y].base, maps[y].size);
    }
  }

  lemma LeadMapOk(m: Mem, c: int, x: Mapping, lead: int)
    requires MapOk(m, c, x) && lead % 16 == 0 && 32 <= lead && lead + 32 <= x.ChunkBytes(c)
    ensures MapOk(LeadTags(m, c + lead, Rd(m, c) + lead, x.ChunkBytes(c) - lead), c + lead, x)
  {
    var c', s := c + lead, x.ChunkBytes(c);
    var m' := LeadTags(m, c', Rd(m, c) + lead, s - lead);
    assert x.ChunkBytes(c') == s - lead && c' + (s - lead) + 8 == c + s + 8;
    assert Rd(m', c') == Rd(m, c) + lead && Rd(m', c' + 8) == s - lead && Rd(m', c + s + 8) == Rd(m, c + s + 8);
  }

  lemma LeadNoChunk(m: Mem, h: Shape, segs: seq<Segment>, maps: Mappings, c: int, c': int)
    requires TagsOk(m, h) && SegsOk(h, segs) && MapsOk(m, maps, segs) && c in maps && maps[c].base <= c' < maps[c].End()
    ensures c' !in h.C
  {
    hide TagsOk, SegsOk;
    if c' in h.C {
      var i := ChunkHeld(m, h, segs, c');
      HeadFacts(m, h, c');
      MapOutside(m, maps, segs, c);
    }
  }

  /** internal_memalign, when the chunk is mapped. */
  lemma LeadAll(m: Mem, b: BinState, h: Shape, k: Marks, leastAddr: int, segs: seq<Segment>, maps: Mappings,
                granted: set<int>, unit: nat, noncontiguous: bool, lost: set<int>, c: int, lead: int)
    requires unit > 0 && HeapOk(m, b, h, k, leastAddr, {})
      && Laid(m, h, leastAddr, segs, maps, granted, unit, noncontiguous) && LostOk(lost, maps)
    requires c in maps && c !in lost && lead % 16 == 0 && 32 <= lead && lead + 32 <= maps[c].ChunkBytes(c)
    ensures var c', u := c + lead, Usable(h, maps);
      var m', maps' := LeadTags(m, c', Rd(m, c) + lead, maps[c].ChunkBytes(c) - lead), Rekeyed(maps, c, c');
      && HeapOk(m', b, h, k, leastAddr, {}) && Laid(m', h, leastAddr, segs, maps', granted, unit, noncontiguous)
      && LostOk(lost, maps')
      && c' !in u && Usable(h, maps') == (u - {c})[c' := maps[c].ChunkBytes(c) - lead - MMAP_CHUNK_OVERHEAD]
      && Kept(m, u, m', Usable(h, maps'), {c}) && MapTotal(maps') == MapTotal(maps)
  {
    hide HeapOk, TagsOk, SegsOk, MapsOk, HasAll, Usable, OwnedMap, MapTotal;
    var c', u := c + lead, Usable(h, maps);
    var m', maps' := LeadTags(m, c', Rd(m, c) + lead, maps[c].ChunkBytes(c) - lead), Rekeyed(maps, c, c');
    TagsIn(m, b, h, k, leastAddr, {});
    MapNoChunk(m, h, maps, segs, c);
    MappedUse(h, maps, c);
    WrittenAll(m, m', b, h, k, leastAddr, segs, maps, granted, unit, noncontiguous, lost,
               c) by { InUseNotLost(u, lost, c); }
    LeadMaps(m, m', h, segs, maps, c, lead);
    RekeyedUse(h, maps, c, c');
    LeadHas(granted, segs, maps, c, c');
    MapTotalRemove(maps, c);
    MapTotalAdd(maps - {c}, c', maps[c]);
    MapHolds(m, segs, maps, c);
  }

  lemma InUseNotLost(u: map<int, int>, lost: set<int>, c: int)
    requires c in u && c !in lost
    ensures c in u - lost
  {
  }

  lemma MappedUse(h: Shape, maps: Mappings, c: int)
    requires c in maps && c !in h.C
    ensures c in Usable(h, maps) && Usable(h, maps)[c] == maps[c].ChunkBytes(c) - MMAP_CHUNK_OVERHEAD
  {
    assert c in MappedMap(maps);
  }

  lemma RekeyedUse(h: Shape, maps: Mappings, c: int, c': int)
    requires c in maps && c !in h.C && c' !in maps && c' !in h.C
    ensures c' !in Usable(h, maps)
    ensures Usable(h, Rekeyed(maps, c, c')) ==
      (Usable(h, maps) - {c})[c' := maps[c].ChunkBytes(c') - MMAP_CHUNK_OVERHEAD]
  {
    EqualIfSame(Usable(h, Rekeyed(maps, c, c')),
                (Usable(h, maps) - {c})[c' := maps[c].ChunkBytes(c') - MMAP_CHUNK_OVERHEAD]);
  }

  lemma LeadHas(granted: set<int>, segs: seq<Segment>, maps: Mappings, c: int, c': int)
    requires HasAll(granted, segs, maps) && c in maps
    ensures HasAll(granted, segs, Rekeyed(maps, c, c'))
  {
    forall d | d in Rekeyed(maps, c, c')
      ensures Has(granted, Rekeyed(maps, c, c')[d].base, Rekeyed(maps, c, c')[d].size) {
      assert Has(granted, maps[if d == c' then c else d].base, maps[if d == c' then c else d].size);
    }
  }

  lemma RoundedRequest(bytes: nat, alignment: nat)
    requires MIN_CHUNK_SIZE <= alignment <= WORD / 2 && bytes < MAX_REQUEST - alignment
    ensures var nb := Request2Size(bytes);
      && nb == SizeFor(bytes) && nb % 16 == 0 && nb >= MIN_CHUNK_SIZE && bytes <= nb - 8
      && nb + alignment + MIN_CHUNK_SIZE - 8 < WORD
  {
    SizeForFits(bytes);
    RequestSize(bytes);
  }

  lemma MappedInUse(h: Shape, maps: Mappings, p: int)
    requires p in maps
    ensures p in Usable(h, maps)
  {
    assert p in MappedMap(maps);
  }

  /** A new chunk of nb bytes in the heap. */
  lemma GainedNew(h: Shape, maps: Mappings, u': map<int, int>, p: int, nb: nat)
    requires p !in Usable(h, maps) && u' == Usable(h, maps)[p := nb - 8] && nb >= MIN_CHUNK_SIZE && p % 16 == 0 && p > 0
    ensures Gained(Usable(h, maps), u', p, nb) && u'[p] < nb + 24 && p !in maps
  {
    if p in maps { MappedInUse(h, maps, p); }
  }

  /** A mapped chunk is in use, and 16 bytes in it are not for the program. */
  lemma MappedPlace(m: Mem, b: BinState, h: Shape, k: Marks, leastAddr: int, segs: seq<Segment>, maps: Mappings,
                    granted: set<int>, unit: nat, noncontiguous: bool, c: int)
    requires unit > 0 && HeapOk(m, b, h, k, leastAddr, {}) && c in maps
      && Laid(m, h, leastAddr, segs, maps, granted, unit, noncontiguous)
    ensures c in Usable(h, maps) && Usable(h, maps)[c] == maps[c].ChunkBytes(c) - MMAP_CHUNK_OVERHEAD
    ensures c % 16 == 0 && c > 0
  {
    hide HeapOk, TagsOk, SegsOk, HasAll, Usable;
    TagsIn(m, b, h, k, leastAddr, {});
    MapNoChunk(m, h, maps, segs, c);
    MappedUse(h, maps, c);
    MappedTags(m, segs, maps, c, leastAddr);
  }

  lemma NothingMoved(m: Mem, u: map<int, int>, p: int)
    requires p in u
    ensures u == (u - {p})[p := u[p]] && Kept(m, u, m, u, {p})
  {
    EqualIfSame(u, (u - {p})[p := u[p]]);
  }

  lemma ChunkPlace(m: Mem, b: BinState, h: Shape, k: Marks, leastAddr: int, p: int)
    requires HeapOk(m, b, h, k, leastAddr, {}) && p in h.C
    ensures p > 0 && p % 16 == 0
  {
    hide HeapOk, TagsOk;
    TagsIn(m, b, h, k, leastAddr, {});
    HeadFacts(m, h, p);
  }

  /** memalign, as the program sees it. */
  lemma AlignedOwn(m0: Mem, u0: map<int, int>, m1: Mem, held1: map<int, int>, m2: Mem, held2: map<int, int>,
                   lost: set<int>, p0: int, p: int, nb: int)
    requires p0 !in u0 && p0 in held1 && p0 !in lost && held1 - lost == u0[p0 := held1[p0]]
      && Kept(m0, u0, m1, held1 - lost, {})
    requires (p == p0 || p !in held1) && p in held2 && held2 == (held1 - {p0})[p := held2[p]] && nb - 8 <= held2[p]
      && p > 0 && p % 16 == 0
    requires Kept(m1, held1, m2, held2, {p0}) && lost <= held1.Keys
    ensures Gained(u0, held2 - lost, p, nb) && Kept(m0, u0, m2, held2 - lost, {}) && (held2 - lost)[p] == held2[p]
  {
    hide Kept;
    assert p !in lost;
    OwnMoved(held1, held2, lost, p0, p, held2[p]);
    OwnKept(m1, held1, m2, held2, {p0}, lost);
    AlignedGain(m0, u0, m1, held1 - lost, m2, held2 - lost, p0, p, nb);
  }

  /** Every chunk is aligned to 16 bytes. */
  lemma GainedAligned(u: map<int, int>, u': map<int, int>, p: int, nb: int, alignment: nat)
    requires Gained(u, u', p, nb) && alignment <= 16
    ensures PowerOfTwo(alignment) ==> Aligned(p + 16, alignment)
  {
    if PowerOfTwo(alignment) { SmallPowers(alignment); }
  }

  lemma SmallPowers(a: nat)
    requires PowerOfTwo(a) && a <= 16
    ensures a == 1 || a == 2 || a == 4 || a == 8 || a == 16
  {
  }

  /** 32 is aligned to 32 and 16; a larger power of two is not rounded. */
  lemma LessAligned(mem: int, alignment0: nat, alignment: nat)
    requires Aligned(mem, alignment) && alignment0 > 16 && (alignment == 32 || alignment < 2 * alignment0)
    requires PowerOfTwo(alignment0) && alignment0 >= 32 ==> alignment == alignment0
    ensures PowerOfTwo(alignment0) ==> Aligned(mem, alignment0)
  {
    if PowerOfTwo(alignment0) && alignment0 < 32 { NoPowerBetween(alignment0); }
  }

  lemma NoPowerBetween(a: nat)
    requires PowerOfTwo(a) && a < 32
    ensures a <= 16
  {
    if a != 1 { SmallPowers(a / 2); }
  }

  // ---------------------------------------------------------------------------------------
  // bulk_free

  /** An entry that is followed by the chunk behind its own: both chunks lie in the heap. */
  lemma Joinable(m: Mem, b: BinState, h: Shape, k: Marks, leastAddr: int, segs: seq<Segment>, maps: Mappings,
                 granted: set<int>, unit: nat, noncontiguous: bool, lost: set<int>, p: int, next: int)
    requires unit > 0 && HeapOk(m, b, h, k, leastAddr, {})
      && Laid(m, h, leastAddr, segs, maps, granted, unit, noncontiguous)
    requires p in Usable(h, maps) - lost && next in Usable(h, maps) - lost && next == p + ChunkSize(Rd(m, p + 8))
    ensures p !in maps && next !in maps && Owned(h, p) && Owned(h, next) && next == p + h.C[p] && p != next
  {
    hide HeapOk, SegsOk, HasAll, TagsOk, Usable, ChunkSize, IsInuse, IsMmapped;
    TagsIn(m, b, h, k, leastAddr, {});
    KindOf(m, b, h, k, leastAddr, segs, maps, granted, unit, noncontiguous, lost, p);
    KindOf(m, b, h, k, leastAddr, segs, maps, granted, unit, noncontiguous, lost, next);
    if p in maps {
      if next in maps {
        MapsOneByOne(m, maps, segs, p, next);
      } else {
        LeadNoChunk(m, h, segs, maps, p, next);
      }
    } else if next in maps {
      MapNoChunk(m, h, maps, segs, next);
    } else {
      HeadFacts(m, h, p);
    }
  }

  /** Two neighbours became one chunk. */
  lemma JoinedAll(m: Mem, b: BinState, h: Shape, k: Marks, leastAddr: int, m': Mem, b': BinState, h': Shape, k': Marks,
                  segs: seq<Segment>, maps: Mappings, granted: set<int>, unit: nat, noncontiguous: bool,
                    p: int, next: int)
    requires unit > 0 && HeapOk(m, b, h, k, leastAddr, {}) && HeapOk(m', b', h', k', leastAddr, {})
      && Tame(m, h, m', h', {p, next})
    requires Laid(m, h, leastAddr, segs, maps, granted, unit, noncontiguous) && Owned(h, p)
      && Owned(h, next) && Owned(h', p)
    requires UsedMap(h') == (UsedMap(h) - {p, next})[p := h'.C[p]] && p !in maps && next !in maps
    ensures Laid(m', h', leastAddr, segs, maps, granted, unit, noncontiguous)
    ensures Usable(h', maps) == (Usable(h, maps) - {p, next})[p := h'.C[p] - 8]
      && Kept(m, Usable(h, maps), m', Usable(h', maps), {p, next})
  {
    hide HeapOk, TagsOk, SegsOk, MapsOk, HasAll, Usable, Kept, Tame, UsedMap;
    TagsIn(m, b, h, k, leastAddr, {});
    TagsIn(m', b', h', k', leastAddr, {});
    UseFromMap(m, h);
    UseFromMap(m', h');
    StepAll(m, b, h, k, leastAddr, m', b', h', k', {p, next}, segs, maps, granted, unit, noncontiguous, {}, {});
    OwnedSame(m, h, m', h', {p, next});
    JoinedOwned(h, h', p, next);
    JoinedUsable(h, h', maps, p, next, h'.C[p] - 8);
  }

  /** A mapped chunk is not one of the heap. */
  lemma MappedNoChunk(m: Mem, b: BinState, h: Shape, k: Marks, leastAddr: int, segs: seq<Segment>, maps: Mappings,
                      granted: set<int>, unit: nat, noncontiguous: bool, p: int)
    requires unit > 0 && HeapOk(m, b, h, k, leastAddr, {})
      && Laid(m, h, leastAddr, segs, maps, granted, unit, noncontiguous) && p in maps
    ensures p !in h.C
  {
    hide HeapOk, SegsOk, MapsOk, HasAll, TagsOk;
    TagsIn(m, b, h, k, leastAddr, {});
    MapNoChunk(m, h, maps, segs, p);
  }

  lemma JoinedOwned(h: Shape, h': Shape, p: int, next: int)
    requires Owned(h', p) && p in h.U && (next == p || next !in h'.U)
    requires forall q | q != p && q != next ::
      (q in OwnedMap(h) <==> q in OwnedMap(h')) && (q in OwnedMap(h) ==> OwnedMap(h')[q] == OwnedMap(h)[q])
    ensures OwnedMap(h') == (OwnedMap(h) - {p, next})[p := h'.C[p] - 8]
  {
    EqualIfSame(OwnedMap(h'), (OwnedMap(h) - {p, next})[p := h'.C[p] - 8]);
  }

  lemma JoinedUsable(h: Shape, h': Shape, maps: Mappings, p: int, next: int, s: int)
    requires OwnedMap(h') == (OwnedMap(h) - {p, next})[p := s] && p !in maps && next !in maps
    ensures Usable(h', maps) == (Usable(h, maps) - {p, next})[p := s]
  {
    hide OwnedMap;
    EqualIfSame(Usable(h', maps), (Usable(h, maps) - {p, next})[p := s]);
  }

  lemma OwnJoined(u: map<int, int>, u': map<int, int>, lost: set<int>, p: int, next: int, s: int)
    requires u' == (u - {p, next})[p := s] && p !in lost
    ensures u' - lost == ((u - lost) - {p, next})[p := s]
  {
    EqualIfSame(u' - lost, ((u - lost) - {p, next})[p := s]);
  }

  /** What is left to do on an array of pointers. */
  ghost predicate Pending(m0: Mem, u0: map<int, int>, m: Mem, u: map<int, int>, E: set<int>, s: seq<int>) {
    && OnceEach(s) && Listed(s) <= E && (forall x | x in Listed(s) :: x in u)
    && u - Listed(s) == u0 - E && Kept(m0, u0, m, u, E)
  }

  lemma StartPending(m: Mem, u: map<int, int>, s: seq<int>)
    requires OnceEach(s) && forall x | x in Listed(s) :: x in u
    ensures Pending(m, u, m, u, Listed(s), s)
  {
  }

  /** One entry was joined with the next. */
  lemma JoinedEntry(m0: Mem, u0: map<int, int>, m: Mem, u: map<int, int>, m': Mem, u': map<int, int>,
                    E: set<int>, s: seq<int>, p: int, next: int)
    requires Pending(m0, u0, m, u, E, s) && |s| > 1 && s[0] == p + 16 && s[0] != 0 && s[1] == next + 16
      && s[1] != 0 && p != next
    requires p in u' && u' == (u - {p, next})[p := u'[p]] && Kept(m, u, m', u', {p, next})
    ensures Pending(m0, u0, m', u', E, s[1..][0 := p + 16])
  {
    hide Kept, OnceEach;
    var t := s[1..][0 := p + 16];
    JoinedListed(s, p);
    KeptTwice(m0, u0, m, u, m', u', E, {p, next});
    assert E + {p, next} == E;
    EqualIfSame(u' - Listed(t), u - Listed(s));
  }

  /** One entry was freed. */
  lemma FreedEntry(m0: Mem, u0: map<int, int>, m: Mem, u: map<int, int>, m': Mem, u': map<int, int>, E: set<int>,
                   s: seq<int>, p: int)
    requires Pending(m0, u0, m, u, E, s) && s != [] && s[0] == p + 16 && s[0] != 0 && u' == u - {p}
      && Kept(m, u, m', u', {p})
    ensures Pending(m0, u0, m', u', E, s[1..])
  {
    hide Kept, OnceEach;
    RestListed(s);
    KeptTwice(m0, u0, m, u, m', u', E, {p});
    assert E + {p} == E;
    EqualIfSame(u' - Listed(s[1..]), u - Listed(s));
  }

  lemma NullEntry(m0: Mem, u0: map<int, int>, m: Mem, u: map<int, int>, E: set<int>, s: seq<int>)
    requires Pending(m0, u0, m, u, E, s) && s != [] && s[0] == 0
    ensures Pending(m0, u0, m, u, E, s[1..])
  {
    SkipNull(s);
  }

  lemma NonePending(m0: Mem, u0: map<int, int>, m: Mem, u: map<int, int>, E: set<int>)
    requires Pending(m0, u0, m, u, E, [])
    ensures u == u0 - E && Kept(m0, u0, m, u, E)
  {
    NothingListed([]);
  }

  lemma PendingOnce(m0: Mem, u0: map<int, int>, m: Mem, u: map<int, int>, E: set<int>, s: seq<int>)
    requires Pending(m0, u0, m, u, E, s)
    ensures OnceEach(s)
  {
  }

  lemma FirstPending(m0: Mem, u0: map<int, int>, m: Mem, u: map<int, int>, E: set<int>, s: seq<int>)
    requires Pending(m0, u0, m, u, E, s) && s != [] && s[0] != 0
    ensures OnceEach(s) && s[0] - 16 in u && (|s| > 1 && s[1] != 0 ==> s[1] - 16 in u)
  {
  }

  lemma OffsetNat(m: Mem, h: Shape, leastAddr: int, segs: seq<Segment>, maps: Mappings, granted: set<int>, unit: nat,
                  noncontiguous: bool, c: int)
    requires unit > 0 && Laid(m, h, leastAddr, segs, maps, granted, unit, noncontiguous) && c in maps
    ensures maps[c].base <= c && MapOk(m, c, maps[c])
  {
    assert MapOk(m, c, maps[c]);
  }
}
