/** The memory of the program: the chunks it owns, in the heap or mapped, and what it wrote there. */
module Payloads {
  import opened ChunkMemory
  import opened Chunks
  import opened HeapState
  import opened HeapInvariant
  import opened Freeing
  import opened Tiling
  import opened Regions
  import opened Segments
  import TreeState

  const MMAP_CHUNK_OVERHEAD: int := 16

  /** The chunks of the heap that belong to the program, and how many bytes each may hold. */
  function OwnedMap(h: Shape): map<int, int> {
    map p | p in h.C && Owned(h, p) :: if p in h.C && Owned(h, p) then h.C[p] - 8 else 0
  }

  function MappedMap(maps: Mappings): map<int, int> {
    map c | c in maps :: if c in maps then maps[c].ChunkBytes(c) - MMAP_CHUNK_OVERHEAD else 0
  }

  /** What malloc_usable_size says about every chunk of the program. */
  function Usable(h: Shape, maps: Mappings): map<int, int> {
    OwnedMap(h) + MappedMap(maps)
  }

  predicate Payload(u: map<int, int>, q: int, a: int) {
    q in u && q + 16 <= a < q + 16 + u[q]
  }

  /** The chunks of the program other than X are there as before, with the same contents. */
  ghost predicate Kept(m: Mem, u: map<int, int>, m': Mem, u': map<int, int>, X: set<int>) {
    && (forall q | q in u && q !in X :: q in u' && u'[q] == u[q])
    && (forall q, a {:trigger Payload(u, q, a)} | Payload(u, q, a) && q !in X :: Rd(m', a) == Rd(m, a))
  }

  /** The first n bytes of a chunk are in another one now. */
  ghost predicate SameBytes(m: Mem, p: int, m': Mem, q: int, n: int) {
    forall a {:trigger Rd(m', a)} | q + 16 <= a < q + 16 + n :: Rd(m', a) == Rd(m, a - q + p)
  }

  function Min(a: int, b: int): int {
    if a < b then a else b
  }

  lemma KeptTwice(m0: Mem, u0: map<int, int>, m1: Mem, u1: map<int, int>, m2: Mem, u2: map<int, int>,
                  X: set<int>, Y: set<int>)
    requires Kept(m0, u0, m1, u1, X) && Kept(m1, u1, m2, u2, Y)
    ensures Kept(m0, u0, m2, u2, X + Y)
  {
    forall q, a {:trigger Payload(u0, q, a)} | Payload(u0, q, a) && q !in X + Y ensures Rd(m2, a) == Rd(m0, a) {
      assert Payload(u1, q, a);
    }
  }

  lemma KeptSame(m: Mem, u: map<int, int>)
    ensures Kept(m, u, m, u, {})
  {
  }

  lemma KeptAfter(m: Mem, u: map<int, int>, m1: Mem, u1: map<int, int>, m2: Mem, u2: map<int, int>, X: set<int>)
    requires Kept(m, u, m1, u1, X) && Kept(m1, u1, m2, u2, {})
    ensures Kept(m, u, m2, u2, X)
  {
    KeptTwice(m, u, m1, u1, m2, u2, X, {});
    assert X + {} == X;
  }

  lemma KeptFresh(m: Mem, u: map<int, int>, m1: Mem, u1: map<int, int>, m2: Mem, u2: map<int, int>, p: int)
    requires Kept(m, u, m1, u1, {}) && Kept(m1, u1, m2, u2, {p}) && p !in u
    ensures Kept(m, u, m2, u2, {})
  {
    KeptTwice(m, u, m1, u1, m2, u2, {}, {p});
  }

  lemma KeptOn(m0: Mem, u0: map<int, int>, m1: Mem, u1: map<int, int>, m2: Mem, u2: map<int, int>)
    requires Kept(m0, u0, m1, u1, {}) && Kept(m1, u1, m2, u2, {})
    ensures Kept(m0, u0, m2, u2, {})
  {
    KeptTwice(m0, u0, m1, u1, m2, u2, {}, {});
  }

  // ---------------------------------------------------------------------------------------
  // Regions and segments

  /** Where a region lies. */
  lemma RegionHeld(m: Mem, h: Shape, segs: seq<Segment>, f: int) returns (i: nat)
    requires SegsOk(h, segs) && f in h.R
    ensures i < |segs| && First(segs[i]) == f && segs[i].base <= f && h.R[f] + 32 <= segs[i].End()
  {
    i :| 0 <= i < |segs| && First(segs[i]) == f;
    AlignsUp(segs[i].base);
    assert SegOk(h, segs[i]);
  }

  /** No segment holds the words from lo to hi. */
  predicate Outside(segs: seq<Segment>, lo: int, hi: int) {
    forall i | 0 <= i < |segs| :: hi <= segs[i].base || segs[i].End() <= lo
  }

  lemma OutsideForeign(m: Mem, h: Shape, segs: seq<Segment>, lo: int, hi: int, a: int)
    requires SegsOk(h, segs) && Outside(segs, lo, hi) && lo <= a < hi && HEAP_MIN <= lo
    ensures Foreign(h, a)
  {
    hide SegsOk;
    forall f | f in h.R ensures !(f <= a < h.R[f] + 16) {
      var i := RegionHeld(m, h, segs, f);
    }
  }

  lemma MapOutside(m: Mem, maps: Mappings, segs: seq<Segment>, c: int)
    requires MapsOk(m, maps, segs) && c in maps
    ensures Outside(segs, maps[c].base, maps[c].End())
  {
    forall j | 0 <= j < |segs| ensures maps[c].End() <= segs[j].base || segs[j].End() <= maps[c].base {
      assert BlocksApart(maps[c].base, maps[c].size, segs[j].base, segs[j].size);
    }
  }

  /** Chunks of the heap lie in segments. */
  lemma ChunkHeld(m: Mem, h: Shape, segs: seq<Segment>, p: int) returns (i: nat)
    requires TagsOk(m, h) && SegsOk(h, segs) && p in h.C
    ensures i < |segs| && segs[i].base <= p && p + h.C[p] + 32 <= segs[i].End()
  {
    hide SegsOk, ChunkOk, RegionOk, TreeState.Apart;
    var f :| Inside(h, p, f);
    i := RegionHeld(m, h, segs, f);
  }

  lemma MapNoChunk(m: Mem, h: Shape, maps: Mappings, segs: seq<Segment>, c: int)
    requires TagsOk(m, h) && SegsOk(h, segs) && MapsOk(m, maps, segs) && c in maps
    ensures c !in h.C
  {
    hide SegsOk, TagsOk;
    if c in h.C {
      var i := ChunkHeld(m, h, segs, c);
      HeadFacts(m, h, c);
      assert MapOk(m, c, maps[c]);
      MapOutside(m, maps, segs, c);
    }
  }

  // ---------------------------------------------------------------------------------------
  // Heap operations, as the program sees them

  lemma EndsSame(m: Mem, h: Shape, m': Mem, h': Shape, q: int)
    requires TagsOk(m, h) && TagsOk(m', h') && h'.R == h.R && q in h.C && q in h'.C && h'.C[q] == h.C[q]
    ensures q + h.C[q] in h.C <==> q + h.C[q] in h'.C
  {
    hide HeadOk, BackOk, RegionOk, TreeState.Apart, IsEnd;
    ChunkFacts(m, h, q);
    ChunkFacts(m', h', q);
    var n := q + h.C[q];
    if n !in h.C { SameEndMark(h, h', n); EndNoChunk(m', h', n); }
    if n !in h'.C { SameEndMark(h', h, n); EndNoChunk(m, h, n); }
  }

  lemma SameEndMark(h: Shape, h': Shape, e: int)
    requires h'.R == h.R && IsEnd(h, e)
    ensures IsEnd(h', e)
  {
  }

  /** When the chunks in use change only in X, so do the owned ones. */
  lemma OwnedSame(m: Mem, h: Shape, m': Mem, h': Shape, X: set<int>)
    requires TagsOk(m, h) && TagsOk(m', h') && Tame(m, h, m', h', X)
    requires forall q | q in h'.U && q !in X :: q in h.U
    ensures forall q | q !in X ::
      (q in OwnedMap(h) <==> q in OwnedMap(h')) && (q in OwnedMap(h) ==> OwnedMap(h')[q] == OwnedMap(h)[q])
  {
    hide ChunkOk, RegionOk, TreeState.Apart, LiveWord, Foreign;
    forall q | q !in X
      ensures (q in OwnedMap(h) <==> q in OwnedMap(h')) && (q in OwnedMap(h) ==> OwnedMap(h')[q] == OwnedMap(h)[q])
    {
      if q in h.U && q in h.C {
        assert Stays(h, h', q);
        EndsSame(m, h, m', h', q);
      }
    }
  }

  lemma OwnedPayload(h: Shape, q: int, a: int)
    requires Payload(OwnedMap(h), q, a)
    ensures LiveWord(h, q, a)
  {
  }

  lemma MappedPayload(h: Shape, maps: Mappings, q: int, a: int)
    requires q in MappedMap(maps) && Payload(Usable(h, maps), q, a)
    ensures q in maps && q + 16 <= a < q + maps[q].ChunkBytes(q)
  {
  }

  /** A heap operation keeps the program's memory, and what is mapped. */
  lemma HeapStep(m: Mem, h: Shape, m': Mem, h': Shape, X: set<int>, segs: seq<Segment>, maps: Mappings,
                 granted: set<int>)
    requires TagsOk(m, h) && TagsOk(m', h') && Tame(m, h, m', h', X) && SpaceOk(m, h, segs, maps, granted)
    requires forall q | q in h'.U && q !in X :: q in h.U
    requires forall q | q in X && q in h.U :: Owned(h, q)
    ensures SpaceOk(m', h', segs, maps, granted)
    ensures Kept(m, Usable(h, maps), m', Usable(h', maps), X)
  {
    hide TagsOk, SegsOk, MapsOk, HasAll, LiveWord, OwnedMap, MappedMap;
    HeapStepSegs(m, h, m', h', X, segs);
    HeapStepMaps(m, h, m', h', X, segs, maps);
    OwnedSame(m, h, m', h', X);
    forall q | q in MappedMap(maps) ensures q !in OwnedMap(h) && q !in OwnedMap(h') {
      NotOwned(m, h, maps, segs, q);
      NotOwned(m', h', maps, segs, q);
    }
    forall q, a {:trigger Payload(Usable(h, maps), q, a)} | Payload(Usable(h, maps), q, a) && q !in X
      ensures Rd(m', a) == Rd(m, a) {
      if q in MappedMap(maps) {
        MappedPayload(h, maps, q, a);
        MappedWord(m, h, m', h', X, segs, maps, q, a);
      } else {
        assert Payload(OwnedMap(h), q, a);
        OwnedPayload(h, q, a);
      }
    }
  }

  lemma NotOwned(m: Mem, h: Shape, maps: Mappings, segs: seq<Segment>, q: int)
    requires TagsOk(m, h) && SegsOk(h, segs) && MapsOk(m, maps, segs) && q in MappedMap(maps)
    ensures q !in OwnedMap(h)
  {
    hide TagsOk, SegsOk, MapsOk;
    MapNoChunk(m, h, maps, segs, q);
  }

  lemma HeapStepSegs(m: Mem, h: Shape, m': Mem, h': Shape, X: set<int>, segs: seq<Segment>)
    requires TagsOk(m, h) && TagsOk(m', h') && Tame(m, h, m', h', X) && SegsOk(h, segs)
    requires forall q | q in X && q in h.U :: Owned(h, q)
    ensures SegsOk(h', segs)
  {
    hide ChunkOk, RegionOk, TreeState.Apart, LiveWord, Foreign, SegsApart;
    TopOrNot(m, h);
    TopOrNot(m', h');
    forall i | 1 <= i < |segs| ensures RecordOk(h', segs[i]) {
      assert RecordOk(h, segs[i]);
      var r := h.R[First(segs[i])] - 48;
      RecordNotOwned(m, h, First(segs[i]));
      assert Stays(h, h', r);
    }
    forall i | 0 <= i < |segs| ensures SegOk(h', segs[i]) {
      assert SegOk(h, segs[i]);
    }
  }

  lemma TopOrNot(m: Mem, h: Shape)
    requires TagsOk(m, h)
    ensures h.top == 0 <==> TopEnd(h) == 0
  {
    hide RegionOk, TreeState.Apart, ChunkOk;
    if h.top != 0 { HeadFacts(m, h, h.top); }
  }

  lemma RecordNotOwned(m: Mem, h: Shape, f: int)
    requires TagsOk(m, h) && f in h.R && h.R[f] - 48 in h.C && h.C[h.R[f] - 48] == 48
    ensures !Owned(h, h.R[f] - 48)
  {
    RegionFirst(m, h, f);
  }

  lemma HeapStepMaps(m: Mem, h: Shape, m': Mem, h': Shape, X: set<int>, segs: seq<Segment>, maps: Mappings)
    requires Tame(m, h, m', h', X) && SegsOk(h, segs) && MapsOk(m, maps, segs)
    ensures MapsOk(m', maps, segs)
  {
    hide SegsOk, LiveWord, Stays;
    forall c | c in maps ensures MapOk(m', c, maps[c]) {
      assert MapOk(m, c, maps[c]);
      MapOutside(m, maps, segs, c);
      var s := maps[c].ChunkBytes(c);
      OutsideForeign(m, h, segs, maps[c].base, maps[c].End(), c);
      OutsideForeign(m, h, segs, maps[c].base, maps[c].End(), c + 8);
      OutsideForeign(m, h, segs, maps[c].base, maps[c].End(), c + s + 8);
    }
  }

  lemma MappedWord(m: Mem, h: Shape, m': Mem, h': Shape, X: set<int>, segs: seq<Segment>,
                   maps: Mappings, c: int, a: int)
    requires Tame(m, h, m', h', X) && SegsOk(h, segs) && MapsOk(m, maps, segs) && c in maps
    requires c + 16 <= a < c + maps[c].ChunkBytes(c)
    ensures Rd(m', a) == Rd(m, a)
  {
    hide SegsOk, LiveWord, Stays;
    assert MapOk(m, c, maps[c]);
    MapOutside(m, maps, segs, c);
    OutsideForeign(m, h, segs, maps[c].base, maps[c].End(), a);
  }

  // ---------------------------------------------------------------------------------------
  // What the program owns, afterwards

  /** One more chunk is in use. */
  lemma OwnedGain(m: Mem, h: Shape, m': Mem, h': Shape, p: int)
    requires TagsOk(m, h) && TagsOk(m', h') && Tame(m, h, m', h', {}) && p !in h.U && h'.U == h.U + {p} && Owned(h', p)
    ensures OwnedMap(h') == OwnedMap(h)[p := h'.C[p] - 8] && p !in OwnedMap(h)
  {
    hide TagsOk, LiveWord, Foreign;
    TameLess(m, h, m', h', {}, {p});
    OwnedSame(m, h, m', h', {p});
    EqualIfSame(OwnedMap(h'), OwnedMap(h)[p := h'.C[p] - 8]);
  }

  /** One chunk less is in use. */
  lemma OwnedLoss(m: Mem, h: Shape, m': Mem, h': Shape, p: int)
    requires TagsOk(m, h) && TagsOk(m', h') && Tame(m, h, m', h', {p}) && Owned(h, p) && h'.U == h.U - {p}
    ensures OwnedMap(h') == OwnedMap(h) - {p}
  {
    hide TagsOk, LiveWord, Foreign;
    OwnedSame(m, h, m', h', {p});
    EqualIfSame(OwnedMap(h'), OwnedMap(h) - {p});
  }

  /** One chunk has another size. */
  lemma OwnedResized(m: Mem, h: Shape, m': Mem, h': Shape, p: int)
    requires TagsOk(m, h) && TagsOk(m', h') && Tame(m, h, m', h', {p}) && Owned(h, p) && Owned(h', p) && h'.U == h.U
    ensures OwnedMap(h') == OwnedMap(h)[p := h'.C[p] - 8]
  {
    hide TagsOk, LiveWord, Foreign;
    OwnedSame(m, h, m', h', {p});
    EqualIfSame(OwnedMap(h'), OwnedMap(h)[p := h'.C[p] - 8]);
  }

  /** One chunk makes way for another. */
  lemma OwnedMoved(m: Mem, h: Shape, m': Mem, h': Shape, p: int, q: int)
    requires TagsOk(m, h) && TagsOk(m', h') && Tame(m, h, m', h', {p}) && Owned(h, p) && Owned(h', q)
    requires h'.U == h.U - {p} + {q} && (q == p || q !in h.U)
    ensures OwnedMap(h') == (OwnedMap(h) - {p})[q := h'.C[q] - 8]
  {
    hide TagsOk, LiveWord, Foreign;
    TameLess(m, h, m', h', {p}, {p, q});
    OwnedSame(m, h, m', h', {p, q});
    EqualIfSame(OwnedMap(h'), (OwnedMap(h) - {p})[q := h'.C[q] - 8]);
  }

  lemma UsableWith(h: Shape, h': Shape, maps: Mappings, p: int, s: int)
    requires OwnedMap(h') == OwnedMap(h)[p := s] && p !in maps
    ensures Usable(h', maps) == Usable(h, maps)[p := s]
  {
    hide OwnedMap;
    EqualIfSame(Usable(h', maps), Usable(h, maps)[p := s]);
  }

  lemma UsableWithout(h: Shape, h': Shape, maps: Mappings, p: int)
    requires OwnedMap(h') == OwnedMap(h) - {p} && p !in maps
    ensures Usable(h', maps) == Usable(h, maps) - {p}
  {
    hide OwnedMap;
    EqualIfSame(Usable(h', maps), Usable(h, maps) - {p});
  }
}
