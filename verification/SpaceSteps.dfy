/** How the space of the heap changes: each way to get memory from the system, or to give it back, keeps
    the segments, the mapped chunks and the memory of the program in order. */
module SpaceSteps {
  import opened ChunkMemory
  import opened Tiling
  import opened AllBins
  import opened Chunks
  import opened HeapState
  import opened HeapInvariant
  import opened Freeing
  import opened Regions
  import opened Segments
  import opened System
  import opened Payloads
  import TreeState

  // ---------------------------------------------------------------------------------------
  // New memory

  predicate NewBlock(segs: seq<Segment>, maps: Mappings, b: int, n: int) {
    && HEAP_MIN <= b && b + n <= LIMIT && n > 0
    && (forall i | 0 <= i < |segs| :: BlocksApart(b, n, segs[i].base, segs[i].size))
    && (forall c | c in maps :: BlocksApart(b, n, maps[c].base, maps[c].size))
  }

  lemma Overlap(granted: set<int>, b: int, n: int, c: int, k: int)
    requires n > 0 && k > 0 && Has(granted, c, k) && forall a | b <= a < b + n :: !(a in granted)
    ensures BlocksApart(b, n, c, k)
  {
    var a := if b < c then c else b;
    var had := a in granted;
  }

  lemma SegPositive(h: Shape, s: Segment)
    requires SegOk(h, s) && h.R[First(s)] > First(s)
    ensures s.size > 0
  {
    AlignsUp(s.base);
  }

  /** Memory the process did not have is apart from what the allocator holds. */
  lemma NewIsApart(m: Mem, h: Shape, segs: seq<Segment>, maps: Mappings, granted: set<int>, b: int, n: int)
    requires TagsOk(m, h) && SpaceOk(m, h, segs, maps, granted) && New(granted, b, n) && n > 0
    ensures NewBlock(segs, maps, b, n)
  {
    hide TagsOk;
    forall i | 0 <= i < |segs| ensures BlocksApart(b, n, segs[i].base, segs[i].size) {
      assert SegOk(h, segs[i]);
      RegionFirst(m, h, First(segs[i]));
      SegPositive(h, segs[i]);
      Overlap(granted, b, n, segs[i].base, segs[i].size);
    }
    forall c | c in maps ensures BlocksApart(b, n, maps[c].base, maps[c].size) {
      assert MapOk(m, c, maps[c]);
      Overlap(granted, b, n, maps[c].base, maps[c].size);
    }
  }

  /** New memory is clear of chunks and markers. */
  lemma NewIsClear(m: Mem, h: Shape, segs: seq<Segment>, maps: Mappings, b: int, n: int, lo: int, hi: int)
    requires TagsOk(m, h) && SegsOk(h, segs) && NewBlock(segs, maps, b, n) && b <= lo && hi <= b + n
    ensures Regions.Clear(h, lo, hi)
  {
    hide TagsOk, SegsOk;
    forall p | p in h.C ensures p + h.C[p] <= lo || hi <= p {
      var i := ChunkHeld(m, h, segs, p);
      assert BlocksApart(b, n, segs[i].base, segs[i].size);
    }
    forall g | g in h.R ensures h.R[g] + 16 <= lo || hi <= g {
      var i := RegionHeld(m, h, segs, g);
      assert BlocksApart(b, n, segs[i].base, segs[i].size);
    }
  }

  /** Writes inside new memory or inside segments do not concern mapped chunks. */
  lemma MapsStay(m: Mem, m': Mem, maps: Mappings, segs: seq<Segment>, segs': seq<Segment>)
    requires MapsOk(m, maps, segs) && MapsAside(maps, segs')
    requires forall a {:trigger Rd(m', a)} | (forall i | 0 <= i < |segs'| :: !SegHolds(segs'[i], a)) ::
      Rd(m', a) == Rd(m, a)
    ensures MapsOk(m', maps, segs')
    ensures forall c, a | c in maps && c <= a < c + maps[c].ChunkBytes(c) :: Rd(m', a) == Rd(m, a)
  {
    forall c, a | c in maps && maps[c].base <= a < maps[c].End() ensures Rd(m', a) == Rd(m, a) {
      forall i | 0 <= i < |segs'| ensures !SegHolds(segs'[i], a) {
        assert BlocksApart(maps[c].base, maps[c].size, segs'[i].base, segs'[i].size);
      }
    }
    forall c | c in maps ensures MapOk(m', c, maps[c]) && forall a | c <= a < c + maps[c].ChunkBytes(c) ::
      Rd(m', a) == Rd(m, a) {
      assert MapOk(m, c, maps[c]);
    }
  }

  // ---------------------------------------------------------------------------------------
  // The program's memory across a change of the space

  /** Nothing the program owns changed. */
  lemma UsableKept(m: Mem, h: Shape, m': Mem, h': Shape, maps: Mappings)
    requires OwnedMap(h') == OwnedMap(h)
    requires forall q, a {:trigger LiveWord(h, q, a)} | LiveWord(h, q, a) :: Rd(m', a) == Rd(m, a)
    requires forall c, a | c in maps && c <= a < c + maps[c].ChunkBytes(c) :: Rd(m', a) == Rd(m, a)
    ensures Kept(m, Usable(h, maps), m', Usable(h', maps), {})
  {
    hide OwnedMap, LiveWord;
    forall q, a {:trigger Payload(Usable(h, maps), q, a)} | Payload(Usable(h, maps), q, a)
      ensures Rd(m', a) == Rd(m, a) {
      if q in MappedMap(maps) {
        MappedPayload(h, maps, q, a);
      } else {
        assert Payload(OwnedMap(h), q, a);
        OwnedPayload(h, q, a);
      }
    }
  }

  // ---------------------------------------------------------------------------------------
  // The first segment

  lemma InitSpace(m: Mem, m': Mem, h: Shape, segs: seq<Segment>, maps: Mappings, granted: set<int>, s: Segment)
    requires TagsOk(m, h) && SpaceOk(m, h, segs, maps, granted) && segs == [] && s.at == 0
    requires NewBlock(segs, maps, s.base, s.size) && s.End() % 8 == 0 && Has(granted, s.base, s.size)
    requires var f, e := First(s), s.End() - TOP_FOOT_SIZE; f + 16 <= e
    requires forall a {:trigger Rd(m', a)} | !SegHolds(s, a) :: Rd(m', a) == Rd(m, a)
    ensures SpaceOk(m', WithRegion(h, First(s), s.End() - TOP_FOOT_SIZE), [s], maps, granted)
    ensures h.C == map[] && h.R == map[]
  {
    hide TagsOk;
    NoRegions(m, h, segs);
    var h' := WithRegion(h, First(s), s.End() - TOP_FOOT_SIZE);
    var segs' := [s];
    assert AllRegions(h', segs') by {
      forall f | f in h'.R ensures exists i :: 0 <= i < |segs'| && First(segs'[i]) == f { assert First(segs'[0]) == f; }
    }
    AlignsUp(s.base);
    assert MapsAside(maps, segs');
    MapsStay(m, m', maps, segs, segs');
  }

  lemma NoRegions(m: Mem, h: Shape, segs: seq<Segment>)
    requires TagsOk(m, h) && SegsOk(h, segs) && segs == []
    ensures h.C == map[] && h.R == map[]
  {
    hide ChunkOk, RegionOk, TreeState.Apart;
    assert forall f :: f !in h.R;
    assert forall p :: p !in h.C;
  }

  // ---------------------------------------------------------------------------------------
  // The segment of top gets longer or shorter

  /** The segment of top with another size. */
  function Resized(segs: seq<Segment>, i: nat, base: int, size: int): seq<Segment>
    requires i < |segs|
  {
    segs[i := segs[i].(base := base, size := size)]
  }

  /** All other held memory is apart from the block. */
  predicate OthersApart(segs: seq<Segment>, i: nat, maps: Mappings, b: int, n: int) {
    && (forall j | 0 <= j < |segs| && j != i :: BlocksApart(b, n, segs[j].base, segs[j].size))
    && (forall c | c in maps :: BlocksApart(b, n, maps[c].base, maps[c].size))
  }

  lemma ResizedApart(segs: seq<Segment>, i: nat, maps: Mappings, b: int, n: int)
    requires i < |segs| && SegsApart(segs) && MapsAside(maps, segs) && OthersApart(segs, i, maps, b, n)
    ensures SegsApart(Resized(segs, i, b, n)) && MapsAside(maps, Resized(segs, i, b, n))
  {
    var t := Resized(segs, i, b, n);
    forall j, k | 0 <= j < k < |t| ensures BlocksApart(t[j].base, t[j].size, t[k].base, t[k].size) {
      if j != i && k != i { assert BlocksApart(segs[j].base, segs[j].size, segs[k].base, segs[k].size); }
    }
    forall c, j | c in maps && 0 <= j < |t| ensures BlocksApart(maps[c].base, maps[c].size, t[j].base, t[j].size) {
      if j != i { assert BlocksApart(maps[c].base, maps[c].size, segs[j].base, segs[j].size); }
    }
  }

  /** Other segments are not where the region of top is. */
  lemma TopRegion(m: Mem, h: Shape, segs: seq<Segment>)
    requires TagsOk(m, h) && SegsOk(h, segs) && segs != []
    ensures var f := First(segs[0]);
      && h.top in h.C && Inside(h, h.top, f) && h.R[f] == h.top + h.C[h.top] && f % 16 == 0
      && h.top != 0 && h.top >= segs[0].base && h.R[f] == segs[0].End() - TOP_FOOT_SIZE
  {
    hide RegionOk, TreeState.Apart, SegsApart, ChunkOk;
    var f := First(segs[0]);
    AlignsUp(segs[0].base);
    ApartOfTop(m, h);
    RegionFirst(m, h, f);
    HeadFacts(m, h, h.top);
    var g :| Inside(h, h.top, g);
    RegionFirst(m, h, g);
    OneEnd(m, h, g, f);
  }

  /** The end of the top segment may move to e, where the memory is not used otherwise. */
  lemma TopMayMove(m: Mem, h: Shape, segs: seq<Segment>, maps: Mappings, size: int)
    requires TagsOk(m, h) && SegsOk(h, segs) && segs != []
    requires OthersApart(segs, 0, maps, segs[0].base, size) && segs[0].base + size <= LIMIT
      && (segs[0].base + size) % 8 == 0
    requires h.top < segs[0].base + size - TOP_FOOT_SIZE
    ensures MayMove(h, First(segs[0]), segs[0].base + size - TOP_FOOT_SIZE)
  {
    hide SegsOk;
    TopRegion(m, h, segs);
    var f, e := First(segs[0]), segs[0].base + size - TOP_FOOT_SIZE;
    forall p | p in h.C && p != h.top ensures p + h.C[p] <= h.top || e + 16 <= p {
      var i := ChunkHeld(m, h, segs, p);
      HeadFacts(m, h, p);
      HeadFacts(m, h, h.top);
      if i != 0 {
        assert BlocksApart(segs[0].base, size, segs[i].base, segs[i].size);
      } else if p > h.top {
        BehindTopNothing(m, h, f, p);
        InTopRegion(m, h, segs, p);
      } else {
      }
    }
    forall g | g in h.R && g != f ensures h.R[g] + 16 <= h.top || e + 16 <= g {
      var i := RegionHeld(m, h, segs, g);
      RegionFirst(m, h, g);
      assert BlocksApart(segs[0].base, size, segs[i].base, segs[i].size);
    }
  }

  /** A chunk in the top segment lies in its region. */
  lemma InTopRegion(m: Mem, h: Shape, segs: seq<Segment>, p: int)
    requires TagsOk(m, h) && SegsOk(h, segs) && segs != [] && p in h.C && segs[0].base <= p
      && p + h.C[p] + 32 <= segs[0].End()
    requires h.C[p] > 0
    ensures p < h.R[First(segs[0])]
  {
    hide TagsOk;
    var f := ChunkRegion(m, h, p);
    var i := RegionHeld(m, h, segs, f);
    var apart := BlocksApart(segs[0].base, segs[0].size, segs[i].base, segs[i].size);
  }

  lemma ChunkRegion(m: Mem, h: Shape, p: int) returns (f: int)
    requires TagsOk(m, h) && p in h.C
    ensures f in h.R && Inside(h, p, f)
  {
    hide ChunkOk, RegionOk, TreeState.Apart;
    f :| Inside(h, p, f);
  }

  /** Append to, or trim, the segment of top. */
  lemma ResizeSpace(m: Mem, m': Mem, h: Shape, segs: seq<Segment>, maps: Mappings, granted: set<int>,
                    granted': set<int>, size: int)
    requires TagsOk(m, h) && SpaceOk(m, h, segs, maps, granted) && segs != []
    requires OthersApart(segs, 0, maps, segs[0].base, size) && segs[0].base + size <= LIMIT
      && (segs[0].base + size) % 8 == 0
    requires h.top < segs[0].base + size - TOP_FOOT_SIZE
    requires HasAll(granted', Resized(segs, 0, segs[0].base, size), maps)
    requires forall a {:trigger Rd(m', a)} | !(segs[0].base <= a < segs[0].base + size) :: Rd(m', a) == Rd(m, a)
    ensures var e := segs[0].base + size - TOP_FOOT_SIZE;
      SpaceOk(m', MovedEnd(h, First(segs[0]), e), Resized(segs, 0, segs[0].base, size), maps, granted')
    ensures OwnedMap(MovedEnd(h, First(segs[0]), segs[0].base + size - TOP_FOOT_SIZE)) == OwnedMap(h)
    ensures forall c, a | c in maps && c <= a < c + maps[c].ChunkBytes(c) :: Rd(m', a) == Rd(m, a)
  {
    hide TagsOk, HasAll;
    var e, t := segs[0].base + size - TOP_FOOT_SIZE, Resized(segs, 0, segs[0].base, size);
    TopMayMove(m, h, segs, maps, size);
    TopRegion(m, h, segs);
    ResizedApart(segs, 0, maps, segs[0].base, size);
    MapsStay(m, m', maps, segs, t) by {
      forall a | forall i | 0 <= i < |t| :: !SegHolds(t[i], a) ensures Rd(m', a) == Rd(m, a) {
        assert !SegHolds(t[0], a);
      }
    }
    ResizeSegs(m, h, segs, size);
    ResizeOwned(m, h, First(segs[0]), e);
  }

  lemma ResizeSegs(m: Mem, h: Shape, segs: seq<Segment>, size: int)
    requires TagsOk(m, h) && SegsOk(h, segs) && segs != []
    requires segs[0].base + size <= LIMIT && (segs[0].base + size) % 8 == 0
    requires h.top < segs[0].base + size - TOP_FOOT_SIZE && SegsApart(Resized(segs, 0, segs[0].base, size))
    ensures SegsOk(MovedEnd(h, First(segs[0]), segs[0].base + size - TOP_FOOT_SIZE),
                   Resized(segs, 0, segs[0].base, size))
  {
    hide TagsOk, SegsApart;
    var e, t := segs[0].base + size - TOP_FOOT_SIZE, Resized(segs, 0, segs[0].base, size);
    var h' := MovedEnd(h, First(segs[0]), e);
    TopRegion(m, h, segs);
    forall i | 0 <= i < |t| ensures SegOk(h', t[i]) && (i >= 1 ==> RecordOk(h', t[i])) {
      ResizeSeg(m, h, segs, size, i);
    }
    assert AllRegions(h', t) by {
      forall f | f in h'.R ensures exists i :: 0 <= i < |t| && First(t[i]) == f {
        var i := RegionHeld(m, h, segs, f);
        assert First(t[i]) == f;
      }
    }
  }

  lemma ResizeSeg(m: Mem, h: Shape, segs: seq<Segment>, size: int, i: nat)
    requires TagsOk(m, h) && SegsOk(h, segs) && i < |segs| && h.top in h.C
    requires segs[0].base + size <= LIMIT && (segs[0].base + size) % 8 == 0
    ensures var h' := MovedEnd(h, First(segs[0]), segs[0].base + size - TOP_FOOT_SIZE);
      var t := Resized(segs, 0, segs[0].base, size);
      SegOk(h', t[i]) && (i >= 1 ==> RecordOk(h', t[i]))
  {
    hide TagsOk, SegsOk;
    SegOf(h, segs, i);
    if i >= 1 {
      FirstsDiffer(m, h, segs, 0, i);
      RecordIsNotTop(m, h, segs[i]);
    }
  }

  lemma FirstsDiffer(m: Mem, h: Shape, segs: seq<Segment>, i: nat, j: nat)
    requires TagsOk(m, h) && SegsOk(h, segs) && i < j < |segs|
    ensures First(segs[i]) != First(segs[j])
  {
    hide TagsOk;
    assert SegOk(h, segs[i]) && SegOk(h, segs[j]);
    AlignsUp(segs[i].base);
    AlignsUp(segs[j].base);
    RegionFirst(m, h, First(segs[i]));
    RegionFirst(m, h, First(segs[j]));
    assert BlocksApart(segs[i].base, segs[i].size, segs[j].base, segs[j].size);
  }

  lemma ResizeOwned(m: Mem, h: Shape, f: int, e: int)
    requires TagsOk(m, h) && h.top in h.C
    ensures OwnedMap(MovedEnd(h, f, e)) == OwnedMap(h)
  {
    hide ChunkOk, RegionOk, TreeState.Apart;
    var h' := MovedEnd(h, f, e);
    ApartOfTop(m, h);
    assert h'.C.Keys == h.C.Keys;
    EqualIfSame(OwnedMap(h'), OwnedMap(h));
  }

  // ---------------------------------------------------------------------------------------
  // A segment grows at its front

  /** A segment may begin at an address where no chunk can; then its first chunk comes a little later, and
      there is nothing in between. */
  lemma NothingBeforeFirst(m: Mem, h: Shape, segs: seq<Segment>, i: nat)
    requires TagsOk(m, h) && SegsOk(h, segs) && i < |segs|
    ensures forall q | q in h.C :: !(segs[i].base <= q < First(segs[i]))
    ensures forall g | g in h.R :: !(segs[i].base <= g < First(segs[i]))
  {
    hide TagsOk, SegsOk;
    forall g | g in h.R ensures !(segs[i].base <= g < First(segs[i])) {
      RegionFirst(m, h, g);
      InRegionOf(m, h, segs, i, g, g);
    }
    forall q | q in h.C ensures !(segs[i].base <= q < First(segs[i])) {
      var f := ChunkRegion(m, h, q);
      HeadFacts(m, h, q);
      InRegionOf(m, h, segs, i, f, q);
    }
  }

  /** What lies in a region is not before the first chunk of a segment. */
  lemma InRegionOf(m: Mem, h: Shape, segs: seq<Segment>, i: nat, f: int, a: int)
    requires TagsOk(m, h) && SegsOk(h, segs) && i < |segs| && f in h.R && f <= a < h.R[f]
    ensures !(segs[i].base <= a < First(segs[i]))
  {
    hide TagsOk, SegsOk;
    ApartSegs(h, segs);
    SegOf(h, segs, i);
    RegionFirst(m, h, First(segs[i]));
    var j := RegionHeld(m, h, segs, f);
  }

  lemma MayGrowFront(m: Mem, h: Shape, segs: seq<Segment>, maps: Mappings, i: nat, b: int, n: int)
    requires TagsOk(m, h) && SegsOk(h, segs) && NewBlock(segs, maps, b, n) && i < |segs|
    requires b + n == segs[i].base && AlignAsChunk(b) + MIN_CHUNK_SIZE <= b + n
    ensures MayFront(h, First(segs[i]), AlignAsChunk(b))
  {
    hide TagsOk, SegsOk;
    var f, p := First(segs[i]), AlignAsChunk(b);
    AlignsUp(segs[i].base);
    AlignsUp(b);
    assert SegOk(h, segs[i]) by { SegOf(h, segs, i); }
    RegionFirst(m, h, f);
    FrontIsClear(m, h, segs, maps, i, b, n);
  }

  lemma FrontIsClear(m: Mem, h: Shape, segs: seq<Segment>, maps: Mappings, i: nat, b: int, n: int)
    requires TagsOk(m, h) && SegsOk(h, segs) && NewBlock(segs, maps, b, n) && i < |segs| && b + n == segs[i].base
    ensures forall q | q in h.C :: q + h.C[q] <= b || First(segs[i]) <= q
    ensures forall g | g in h.R && g != First(segs[i]) :: h.R[g] + 16 <= b || First(segs[i]) <= g
  {
    hide TagsOk, SegsOk;
    NewIsClear(m, h, segs, maps, b, n, b, b + n);
    NothingBeforeFirst(m, h, segs, i);
  }

  lemma SegOf(h: Shape, segs: seq<Segment>, i: nat)
    requires SegsOk(h, segs) && i < |segs|
    ensures SegOk(h, segs[i]) && (i >= 1 ==> RecordOk(h, segs[i]))
  {
  }

  /** Prepend: the segment i begins earlier, with a chunk in use. */
  lemma FrontSpace(m: Mem, m': Mem, h: Shape, segs: seq<Segment>, maps: Mappings, granted: set<int>,
                   i: nat, b: int, n: int)
    requires TagsOk(m, h) && SpaceOk(m, h, segs, maps, granted) && NewBlock(segs, maps, b, n)
      && Has(granted, b, n) && i < |segs|
    requires b + n == segs[i].base && AlignAsChunk(b) + MIN_CHUNK_SIZE <= b + n
    requires forall a {:trigger Rd(m', a)} | !(b <= a < b + n) :: Rd(m', a) == Rd(m, a)
    ensures MayFront(h, First(segs[i]), AlignAsChunk(b))
    ensures SpaceOk(m', Fronted(h, First(segs[i]), AlignAsChunk(b)),
                    Resized(segs, i, b, n + segs[i].size), maps, granted)
    ensures forall c, a | c in maps && c <= a < c + maps[c].ChunkBytes(c) :: Rd(m', a) == Rd(m, a)
  {
    hide TagsOk, SegsOk;
    MayGrowFront(m, h, segs, maps, i, b, n);
    var t := Resized(segs, i, b, n + segs[i].size);
    assert SegsApart(segs) by { ApartSegs(h, segs); }
    HeldIsSized(m, h, segs, maps);
    WiderApart(segs, i, maps, b, n);
    ResizedApart(segs, i, maps, b, n + segs[i].size);
    MapsStay(m, m', maps, segs, t) by {
      forall a | forall j | 0 <= j < |t| :: !SegHolds(t[j], a) ensures Rd(m', a) == Rd(m, a) {
        assert !SegHolds(t[i], a);
        assert SegOk(h, segs[i]) by { SegOf(h, segs, i); }
        RegionFirst(m, h, First(segs[i]));
      }
    }
    FrontSegs(m, h, segs, maps, i, b, n);
  }

  lemma ApartSegs(h: Shape, segs: seq<Segment>)
    requires SegsOk(h, segs)
    ensures SegsApart(segs) && AllRegions(h, segs)
  {
  }

  /** No held block is empty. */
  predicate Sized(segs: seq<Segment>, maps: Mappings) {
    (forall j | 0 <= j < |segs| :: segs[j].size > 0) && (forall c | c in maps :: maps[c].size > 0)
  }

  lemma HeldIsSized(m: Mem, h: Shape, segs: seq<Segment>, maps: Mappings)
    requires TagsOk(m, h) && SegsOk(h, segs) && MapsOk(m, maps, segs)
    ensures Sized(segs, maps)
  {
    hide TagsOk;
    forall j | 0 <= j < |segs| ensures segs[j].size > 0 {
      assert SegOk(h, segs[j]);
      RegionFirst(m, h, First(segs[j]));
      SegPositive(h, segs[j]);
    }
    forall c | c in maps ensures maps[c].size > 0 {
      assert MapOk(m, c, maps[c]);
    }
  }

  lemma WiderApart(segs: seq<Segment>, i: nat, maps: Mappings, b: int, n: int)
    requires Sized(segs, maps)
    requires i < |segs| && SegsApart(segs) && MapsAside(maps, segs) && NewBlock(segs, maps, b, n)
      && b + n == segs[i].base
    ensures OthersApart(segs, i, maps, b, n + segs[i].size)
  {
    forall j | 0 <= j < |segs| && j != i ensures BlocksApart(b, n + segs[i].size, segs[j].base, segs[j].size) {
      assert BlocksApart(b, n, segs[j].base, segs[j].size);
      if i < j {
        assert BlocksApart(segs[i].base, segs[i].size, segs[j].base, segs[j].size);
      } else {
        assert BlocksApart(segs[j].base, segs[j].size, segs[i].base, segs[i].size);
      }
    }
    forall c | c in maps ensures BlocksApart(b, n + segs[i].size, maps[c].base, maps[c].size) {
      assert BlocksApart(maps[c].base, maps[c].size, segs[i].base, segs[i].size);
    }
  }

  lemma FrontSegs(m: Mem, h: Shape, segs: seq<Segment>, maps: Mappings, i: nat, b: int, n: int)
    requires TagsOk(m, h) && SegsOk(h, segs) && NewBlock(segs, maps, b, n) && i < |segs|
    requires b + n == segs[i].base && MayFront(h, First(segs[i]), AlignAsChunk(b))
    requires SegsApart(Resized(segs, i, b, n + segs[i].size))
    ensures SegsOk(Fronted(h, First(segs[i]), AlignAsChunk(b)), Resized(segs, i, b, n + segs[i].size))
  {
    hide TagsOk, MayFront;
    var f, p, t := First(segs[i]), AlignAsChunk(b), Resized(segs, i, b, n + segs[i].size);
    var h' := Fronted(h, f, p);
    FrontPlaces(m, h, f, p);
    forall j | 0 <= j < |t| ensures SegOk(h', t[j]) && (j >= 1 ==> RecordOk(h', t[j])) {
      FrontSeg(m, h, segs, maps, i, b, n, j);
    }
    assert AllRegions(h', t) by {
      forall g | g in h'.R ensures exists j :: 0 <= j < |t| && First(t[j]) == g {
        if g == p {
          assert First(t[i]) == p;
        } else {
          var j := RegionHeld(m, h, segs, g);
          assert First(t[j]) == g;
        }
      }
    }
    FrontTopSeg(m, h, segs, f, p, i);
  }

  lemma FrontTopSeg(m: Mem, h: Shape, segs: seq<Segment>, f: int, p: int, i: nat)
    requires TagsOk(m, h) && SegsOk(h, segs) && i < |segs| && f in h.R && p !in h.C && p !in h.R && First(segs[i]) == f
    ensures TopEnd(Fronted(h, f, p)) == TopEnd(h)
    ensures i > 0 ==> First(segs[0]) != f
  {
    hide SegsOk, ChunkOk, RegionOk, TreeState.Apart;
    if i > 0 { FirstsDiffer(m, h, segs, 0, i); }
    TopRegion(m, h, segs);
  }

  lemma FrontSeg(m: Mem, h: Shape, segs: seq<Segment>, maps: Mappings, i: nat, b: int, n: int, j: nat)
    requires TagsOk(m, h) && SegsOk(h, segs) && NewBlock(segs, maps, b, n) && i < |segs| && j < |segs|
    requires b + n == segs[i].base && MayFront(h, First(segs[i]), AlignAsChunk(b))
    requires AlignAsChunk(b) !in h.C && AlignAsChunk(b) !in h.U && AlignAsChunk(b) !in h.R
    ensures var t, h' := Resized(segs, i, b, n + segs[i].size), Fronted(h, First(segs[i]), AlignAsChunk(b));
      SegOk(h', t[j]) && (j >= 1 ==> RecordOk(h', t[j]))
  {
    hide TagsOk, MayFront, SegsOk;
    SegOf(h, segs, j);
    SegOf(h, segs, i);
    AlignsUp(b);
    if j < i { FirstsDiffer(m, h, segs, j, i); }
    if i < j { FirstsDiffer(m, h, segs, i, j); }
    if j >= 1 { assert RecordOk(h, segs[j]); }
  }

  // ---------------------------------------------------------------------------------------
  // A new segment takes over as the one of top

  /** Where add_segment puts the record of the old top segment. */
  function RecordPlace(h: Shape): int
    requires h.top in h.C
  {
    if h.C[h.top] < MIN_CHUNK_SIZE then h.top else h.top + CapSize(h.C[h.top])
  }

  function WithSegment(h: Shape, segs: seq<Segment>, s: Segment): seq<Segment>
    requires segs != [] && h.top in h.C
  {
    [s, segs[0].(at := RecordPlace(h) + 16)] + segs[1..]
  }

  lemma TopMayCap(m: Mem, h: Shape, segs: seq<Segment>)
    requires TagsOk(m, h) && SegsOk(h, segs) && segs != []
    ensures MayCap(h, First(segs[0]))
  {
    hide SegsOk;
    TopRegion(m, h, segs);
    assert SegOk(h, segs[0]) by { SegOf(h, segs, 0); }
    ApartSegs(h, segs);
    var f, e := First(segs[0]), segs[0].End();
    forall p | p in h.C && p != h.top ensures p + h.C[p] <= h.top || h.R[f] + 80 <= p {
      var i := ChunkHeld(m, h, segs, p);
      HeadFacts(m, h, p);
      HeadFacts(m, h, h.top);
      if i != 0 {
        assert BlocksApart(segs[0].base, segs[0].size, segs[i].base, segs[i].size);
      } else if p > h.top {
        BehindTopNothing(m, h, f, p);
        InTopRegion(m, h, segs, p);
      } else {
      }
    }
    forall g | g in h.R && g != f ensures h.R[g] + 16 <= h.top || h.R[f] + 80 <= g {
      var i := RegionHeld(m, h, segs, g);
      RegionFirst(m, h, g);
      assert BlocksApart(segs[0].base, segs[0].size, segs[i].base, segs[i].size);
    }
  }

  /** The segments while the old top is capped and there is no new one yet. */
  ghost predicate CappedSegs(h: Shape, segs: seq<Segment>) {
    && h.top == 0 && segs != []
    && (forall i | 0 <= i < |segs| :: SegOk(h, segs[i]) && RecordOk(h, segs[i]))
    && SegsApart(segs) && AllRegions(h, segs)
  }

  /** Giving a segment record another place changes neither regions nor extents. */
  lemma SameExtents(h: Shape, h': Shape, segs: seq<Segment>, at: int)
    requires segs != [] && SegsApart(segs) && AllRegions(h, segs) && h'.R.Keys == h.R.Keys
    ensures var t := [segs[0].(at := at)] + segs[1..]; SegsApart(t) && AllRegions(h', t)
  {
    var t := [segs[0].(at := at)] + segs[1..];
    forall i | 0 <= i < |t| ensures t[i].base == segs[i].base && t[i].size == segs[i].size {
    }
    forall i, j | 0 <= i < j < |t| ensures BlocksApart(t[i].base, t[i].size, t[j].base, t[j].size) {
      assert BlocksApart(segs[i].base, segs[i].size, segs[j].base, segs[j].size);
    }
    forall f | f in h'.R ensures exists i :: 0 <= i < |t| && First(t[i]) == f {
      assert f in h.R;
      var i :| 0 <= i < |segs| && First(segs[i]) == f;
      assert First(t[i]) == f;
    }
  }

  lemma CapSegs(m: Mem, h: Shape, segs: seq<Segment>)
    requires TagsOk(m, h) && SegsOk(h, segs) && segs != []
    ensures h.top in h.C
    ensures CappedSegs(Capped(h, First(segs[0])), [segs[0].(at := RecordPlace(h) + 16)] + segs[1..])
  {
    hide TagsOk, SegsOk, SegsApart, AllRegions, MayCap;
    TopRegion(m, h, segs);
    TopMayCap(m, h, segs);
    CapPlaces(m, h, First(segs[0]));
    ApartSegs(h, segs);
    var t := [segs[0].(at := RecordPlace(h) + 16)] + segs[1..];
    var h' := Capped(h, First(segs[0]));
    forall i | 0 <= i < |t| ensures SegOk(h', t[i]) && RecordOk(h', t[i]) {
      CapSeg(m, h, segs, i);
    }
    SegOf(h, segs, 0);
    assert h'.R.Keys == h.R.Keys;
    SameExtents(h, h', segs, RecordPlace(h) + 16);
  }

  predicate CapBounds(h: Shape)
    requires h.top in h.C
  {
    var s, c := h.C[h.top], CapSize(h.C[h.top]);
    c <= s <= c + 8 && s > 0 && c >= 0 && (s >= MIN_CHUNK_SIZE ==> h.top + c !in h.C)
  }

  lemma CapSeg(m: Mem, h: Shape, segs: seq<Segment>, i: nat)
    requires TagsOk(m, h) && SegsOk(h, segs) && i < |segs| && h.top in h.C && MayCap(h, First(segs[0]))
    requires CapBounds(h)
    ensures var t, h' := [segs[0].(at := RecordPlace(h) + 16)] + segs[1..], Capped(h, First(segs[0]));
      SegOk(h', t[i]) && RecordOk(h', t[i])
  {
    hide *;
    var t := [segs[0].(at := RecordPlace(h) + 16)] + segs[1..];
    if i == 0 {
      assert t[i] == segs[0].(at := RecordPlace(h) + 16);
      CapTopSeg(m, h, segs);
    } else {
      assert t[i] == segs[i];
      CapOtherSeg(m, h, segs, i);
    }
  }

  /** The segment of the old top. */
  lemma CapTopSeg(m: Mem, h: Shape, segs: seq<Segment>)
    requires TagsOk(m, h) && SegsOk(h, segs) && segs != [] && h.top in h.C
      && CapBounds(h)
    ensures var s, h' := segs[0].(at := RecordPlace(h) + 16), Capped(h, First(segs[0])); SegOk(h', s) && RecordOk(h', s)
  {
    hide TagsOk, CapSize;
    assert SegOk(h, segs[0]);
    TopRegion(m, h, segs);
  }

  lemma CapOtherSeg(m: Mem, h: Shape, segs: seq<Segment>, i: nat)
    requires TagsOk(m, h) && SegsOk(h, segs) && 0 < i < |segs| && h.top in h.C && CapBounds(h)
    ensures var h' := Capped(h, First(segs[0])); SegOk(h', segs[i]) && RecordOk(h', segs[i])
  {
    hide TagsOk, CapSize;
    assert SegOk(h, segs[i]) && RecordOk(h, segs[i]);
    FirstsDiffer(m, h, segs, 0, i);
    RecordIsNotTop(m, h, segs[i]);
  }

  lemma RecordIsNotTop(m: Mem, h: Shape, s: Segment)
    requires TagsOk(m, h) && RecordOk(h, s)
    ensures h.R[First(s)] - 48 != h.top
  {
    hide ChunkOk, RegionOk, TreeState.Apart;
  }

  lemma MoreExtents(h: Shape, h': Shape, segs: seq<Segment>, s: Segment)
    requires SegsApart(segs) && AllRegions(h, segs) && h'.R.Keys == h.R.Keys + {First(s)}
    requires forall i | 0 <= i < |segs| :: BlocksApart(s.base, s.size, segs[i].base, segs[i].size)
    ensures SegsApart([s] + segs) && AllRegions(h', [s] + segs)
  {
    var t := [s] + segs;
    forall g | g in h'.R ensures exists i :: 0 <= i < |t| && First(t[i]) == g {
      if g == First(s) {
        assert First(t[0]) == g;
      } else {
        assert g in h.R;
        var i :| 0 <= i < |segs| && First(segs[i]) == g;
        assert First(t[i + 1]) == g;
      }
    }
    forall i, j | 0 <= i < j < |t| ensures BlocksApart(t[i].base, t[i].size, t[j].base, t[j].size) {
      if i == 0 {
        assert BlocksApart(s.base, s.size, segs[j - 1].base, segs[j - 1].size);
      } else {
        assert BlocksApart(segs[i - 1].base, segs[i - 1].size, segs[j - 1].base, segs[j - 1].size);
      }
    }
  }

  lemma AddSegs(m: Mem, h: Shape, segs: seq<Segment>, s: Segment)
    requires TagsOk(m, h) && CappedSegs(h, segs) && s.at == 0
    requires HEAP_MIN <= s.base && s.End() <= LIMIT && s.End() % 8 == 0
    requires forall i | 0 <= i < |segs| :: BlocksApart(s.base, s.size, segs[i].base, segs[i].size)
    requires var f, e := First(s), s.End() - TOP_FOOT_SIZE; f + 16 <= e && f !in h.C && f !in h.U && f !in h.R
    ensures SegsOk(WithRegion(h, First(s), s.End() - TOP_FOOT_SIZE), [s] + segs)
  {
    hide TagsOk, SegsApart, AllRegions;
    var f, e, t := First(s), s.End() - TOP_FOOT_SIZE, [s] + segs;
    var h' := WithRegion(h, f, e);
    AlignsUp(s.base);
    forall i | 0 <= i < |t| ensures SegOk(h', t[i]) && (i >= 1 ==> RecordOk(h', t[i])) {
      if i >= 1 { assert SegOk(h, segs[i - 1]) && RecordOk(h, segs[i - 1]); }
    }
    assert h'.R.Keys == h.R.Keys + {f};
    MoreExtents(h, h', segs, s);
  }

  predicate OwnedAlike(h: Shape, h': Shape, q: int) {
    (Owned(h', q) <==> Owned(h, q)) && (Owned(h, q) ==> q in h'.C && q in h.C && h'.C[q] == h.C[q])
  }

  lemma OwnedIff(h: Shape, h': Shape)
    requires forall q :: OwnedAlike(h, h', q)
    ensures OwnedMap(h') == OwnedMap(h)
  {
    forall q ensures q in OwnedMap(h') <==> q in OwnedMap(h) { assert OwnedAlike(h, h', q); }
    forall q | q in OwnedMap(h')
      ensures q in OwnedMap(h) && OwnedMap(h')[q] == OwnedMap(h)[q] { assert OwnedAlike(h, h', q); }
    EqualIfSame(OwnedMap(h'), OwnedMap(h));
  }

  lemma CapOwned(m: Mem, h: Shape, f: int)
    requires TagsOk(m, h) && MayCap(h, f)
    ensures OwnedMap(Capped(h, f)) == OwnedMap(h)
  {
    hide TagsOk, Owned, OwnedAlike, Capped;
    assert h.top in h.C;
    var h' := Capped(h, f);
    forall q ensures OwnedAlike(h, h', q) {
      CapOwnedAt(m, h, f, q);
    }
    OwnedIff(h, h');
  }

  lemma CapOwnedAt(m: Mem, h: Shape, f: int, q: int)
    requires TagsOk(m, h) && MayCap(h, f)
    ensures OwnedAlike(h, Capped(h, f), q)
  {
    hide TagsOk, CapSize;
    CapPlaces(m, h, f);
    ApartOfTop(m, h);
    NothingBehindCap(m, h, f);
    if q in h.C && q != h.top && q + h.C[q] == h.top + h.C[h.top] { SameEnd(m, h, q, h.top); }
  }

  lemma NothingBehindCap(m: Mem, h: Shape, f: int)
    requires TagsOk(m, h) && MayCap(h, f)
    ensures var h', s := Capped(h, f), h.C[h.top];
      (if s < MIN_CHUNK_SIZE then h.top + 48 else h.top + CapSize(s) + 48) !in h'.C
  {
    hide ChunkOk, RegionOk, TreeState.Apart, CapSize;
    CapPlaces(m, h, f);
    forall p | p in h.C ensures p == h.top || p + h.C[p] <= h.top || h.R[f] + 80 <= p {
    }
    forall p | p in h.C ensures h.C[p] > 0 { HeadFacts(m, h, p); }
  }

  lemma AddOwned(m: Mem, h: Shape, f: int, e: int)
    requires TagsOk(m, h) && f !in h.C && f !in h.U && f < e
    requires forall q | q in h.C && q in h.U :: q + h.C[q] != f
    ensures OwnedMap(WithRegion(h, f, e)) == OwnedMap(h)
  {
    hide ChunkOk, RegionOk, TreeState.Apart;
    EqualIfSame(OwnedMap(WithRegion(h, f, e)), OwnedMap(h));
  }

  /** The words that add_segment writes: the new top, and the end of the old one. */
  ghost predicate AddWrites(m: Mem, m1: Mem, m2: Mem, h: Shape, s: Segment)
    requires h.top in h.C
  {
    var f, e := First(s), s.End() - TOP_FOOT_SIZE;
    m1 == m[f + 8 := Head(e - f, true, false)][e + 8 := TOP_FOOT_SIZE] && CapWrites(m1, m2, h.top, h.C[h.top])
  }

  lemma AddWritesPlaces(m: Mem, m1: Mem, m2: Mem, h: Shape, s: Segment, t: int)
    requires h.top in h.C && AddWrites(m, m1, m2, h, s) && h.top % 16 == 0 && h.C[h.top] > 0
    requires First(s) + 16 <= s.End() - TOP_FOOT_SIZE && t == h.top + h.C[h.top] + 80
    requires s.base <= First(s)
    requires t <= s.base || s.End() <= h.top
    ensures forall a {:trigger Rd(m2, a)} | !(h.top + 8 <= a < t) && !SegHolds(s, a) :: Rd(m2, a) == Rd(m, a)
    ensures Rd(m2, First(s) + 8) == Head(s.End() - TOP_FOOT_SIZE - First(s), true, false)
    ensures Rd(m2, s.End() - TOP_FOOT_SIZE + 8) == TOP_FOOT_SIZE
  {
    hide Head;
  }

  /** The heap after the old top was capped, while the new memory is written. */
  lemma AddCapped(m: Mem, m1: Mem, m2: Mem, b: BinState, h: Shape, k: Marks, leastAddr: int, segs: seq<Segment>,
                  maps: Mappings, s: Segment)
    requires HeapOk(m, b, h, k, leastAddr, {}) && SegsOk(h, segs) && segs != []
    requires NewBlock(segs, maps, s.base, s.size) && s.End() % 8 == 0
    requires First(s) + 16 <= s.End() - TOP_FOOT_SIZE && h.top in h.C && AddWrites(m, m1, m2, h, s)
    ensures HeapOk(m2, b, Capped(h, First(segs[0])), k.(top := 0, topsize := 0), leastAddr,
                   if h.C[h.top] < MIN_CHUNK_SIZE then {} else {h.top})
    ensures TagsOk(m, h) && MayCap(h, First(segs[0])) && h.C[h.top] >= 8
    ensures h.top % 16 == 0 && (h.top + h.C[h.top] + 80 <= s.base || s.End() <= h.top)
    ensures s.base <= First(s)
  {
    hide Core, MarksOk, Spare, SegsOk, CapWrites, MayCap, Head;
    CoreTagsOnly(m, b, h, leastAddr);
    AlignsUp(s.base);
    TopRegion(m, h, segs);
    TopMayCap(m, h, segs);
    NewIsForeign(m, h, segs, maps, s.base, s.size);
    ElsewhereHeap(m, m1, b, h, k, leastAddr, {});
    CapHeap(m1, m2, b, h, k, leastAddr, First(segs[0]));
    HeadFacts(m, h, h.top);
    SegOf(h, segs, 0);
    assert BlocksApart(s.base, s.size, segs[0].base, segs[0].size);
  }

  lemma AddHeap(m: Mem, m1: Mem, m2: Mem, b: BinState, h: Shape, k: Marks, leastAddr: int, segs: seq<Segment>,
                maps: Mappings, s: Segment)
    requires HeapOk(m, b, h, k, leastAddr, {}) && SegsOk(h, segs) && segs != []
    requires NewBlock(segs, maps, s.base, s.size) && s.End() % 8 == 0 && leastAddr <= First(s)
    requires First(s) + 16 <= s.End() - TOP_FOOT_SIZE && h.top in h.C && AddWrites(m, m1, m2, h, s)
    ensures var h1 := Capped(h, First(segs[0])); var f, e := First(s), s.End() - TOP_FOOT_SIZE;
      && f !in h1.C && f !in h1.U && f !in h1.R
      && HeapOk(m2, b, WithRegion(h1, f, e), k.(top := f, topsize := e - f), leastAddr,
                if h.C[h.top] < MIN_CHUNK_SIZE then {} else {h.top})
  {
    hide Core, MarksOk, Spare, SegsOk, CapWrites, MayCap, Head, TagsOk, Capped;
    var f, e, h1 := First(s), s.End() - TOP_FOOT_SIZE, Capped(h, First(segs[0]));
    AddCapped(m, m1, m2, b, h, k, leastAddr, segs, maps, s);
    AlignsUp(s.base);
    AlignedEnd(s);
    CapIsClear(m, h, segs, maps, s);
    var X := if h.C[h.top] < MIN_CHUNK_SIZE then {} else {h.top};
    CoreTagsOnly(m2, b, h1, leastAddr);
    NotUsed(m2, h1, f, e);
    AddWritesPlaces(m, m1, m2, h, s, h.top + h.C[h.top] + 80);
    CappedTop(h, First(segs[0]));
    AddRegionHeap(m2, b, h1, k.(top := 0, topsize := 0), leastAddr, X, f, e);
  }

  lemma CappedTop(h: Shape, f: int)
    requires h.top in h.C
    ensures Capped(h, f).top == 0
  {
  }

  lemma CoreTagsOnly(m: Mem, b: BinState, h: Shape, leastAddr: int)
    requires Core(m, b, h, leastAddr)
    ensures TagsOk(m, h)
  {
  }

  lemma AlignedEnd(s: Segment)
    requires s.End() % 8 == 0
    ensures (s.End() - TOP_FOOT_SIZE) % 8 == 0 && s.End() - TOP_FOOT_SIZE <= s.End()
  {
  }

  lemma NewIsForeign(m: Mem, h: Shape, segs: seq<Segment>, maps: Mappings, b: int, n: int)
    requires SegsOk(h, segs) && NewBlock(segs, maps, b, n)
    ensures forall a | b <= a < b + n :: a >= HEAP_MIN && Foreign(h, a)
  {
    hide SegsOk;
    forall a | b <= a < b + n ensures Foreign(h, a) {
      forall i | 0 <= i < |segs| ensures b + n <= segs[i].base || segs[i].End() <= b {
        assert BlocksApart(b, n, segs[i].base, segs[i].size);
      }
      OutsideForeign(m, h, segs, b, b + n, a);
    }
  }

  lemma CapIsClear(m: Mem, h: Shape, segs: seq<Segment>, maps: Mappings, s: Segment)
    requires TagsOk(m, h) && SegsOk(h, segs) && segs != [] && NewBlock(segs, maps, s.base, s.size) && s.base <= First(s)
    requires h.top in h.C && First(s) + 16 <= s.End() - TOP_FOOT_SIZE
    ensures Regions.Clear(Capped(h, First(segs[0])), First(s), s.End() - TOP_FOOT_SIZE + 16)
  {
    hide TagsOk, SegsOk;
    var f0, lo, hi := First(segs[0]), First(s), s.End() - TOP_FOOT_SIZE + 16;
    TopRegion(m, h, segs);
    HeadFacts(m, h, h.top);
    NewIsClear(m, h, segs, maps, s.base, s.size, lo, hi);
    assert BlocksApart(s.base, s.size, segs[0].base, segs[0].size);
    TopMayCap(m, h, segs);
    CapPlaces(m, h, f0);
    var h1 := Capped(h, f0);
    forall p | p in h1.C ensures p + h1.C[p] <= lo || hi <= p {
      if p in h.C && p != h.top { assert h1.C[p] == h.C[p]; }
    }
    forall g | g in h1.R ensures h1.R[g] + 16 <= lo || hi <= g {
      if g != f0 { assert g in h.R && h1.R[g] == h.R[g]; }
      AlignsUp(segs[0].base);
    }
  }

  /** After add_segment: segments, mapped chunks and the memory of the program. */
  lemma AddSpace(m: Mem, m1: Mem, m2: Mem, b: BinState, h: Shape, k: Marks, leastAddr: int,
                 segs: seq<Segment>, maps: Mappings, granted: set<int>, s: Segment)
    requires HeapOk(m, b, h, k, leastAddr, {}) && SpaceOk(m, h, segs, maps, granted) && segs != []
    requires NewBlock(segs, maps, s.base, s.size) && s.End() % 8 == 0 && leastAddr <= First(s) && s.at == 0
    requires Has(granted, s.base, s.size)
    requires First(s) + 16 <= s.End() - TOP_FOOT_SIZE && h.top in h.C && AddWrites(m, m1, m2, h, s)
    ensures var h1 := Capped(h, First(segs[0])); var h2 := WithRegion(h1, First(s), s.End() - TOP_FOOT_SIZE);
      && SpaceOk(m2, h2, WithSegment(h, segs, s), maps, granted)
      && OwnedMap(h2) == OwnedMap(h)
    ensures forall q, a {:trigger LiveWord(h, q, a)} | LiveWord(h, q, a) :: Rd(m2, a) == Rd(m, a)
    ensures forall c, a | c in maps && c <= a < c + maps[c].ChunkBytes(c) :: Rd(m2, a) == Rd(m, a)
  {
    hide *;
    AddedSegs(m, m1, m2, b, h, k, leastAddr, segs, maps, granted, s);
    AddedRest(m, m1, m2, b, h, k, leastAddr, segs, maps, granted, s);
    SpaceFrom(m2, WithRegion(Capped(h, First(segs[0])), First(s), s.End() - TOP_FOOT_SIZE),
              WithSegment(h, segs, s), maps, granted);
  }

  lemma SpaceFrom(m: Mem, h: Shape, segs: seq<Segment>, maps: Mappings, granted: set<int>)
    requires SegsOk(h, segs) && MapsOk(m, maps, segs) && HasAll(granted, segs, maps)
    ensures SpaceOk(m, h, segs, maps, granted)
  {
  }

  lemma AddedSegs(m: Mem, m1: Mem, m2: Mem, b: BinState, h: Shape, k: Marks, leastAddr: int,
                  segs: seq<Segment>, maps: Mappings, granted: set<int>, s: Segment)
    requires HeapOk(m, b, h, k, leastAddr, {}) && SpaceOk(m, h, segs, maps, granted) && segs != []
    requires NewBlock(segs, maps, s.base, s.size) && s.End() % 8 == 0 && leastAddr <= First(s) && s.at == 0
    requires First(s) + 16 <= s.End() - TOP_FOOT_SIZE && h.top in h.C && AddWrites(m, m1, m2, h, s)
    ensures var h1 := Capped(h, First(segs[0])); var h2 := WithRegion(h1, First(s), s.End() - TOP_FOOT_SIZE);
      SegsOk(h2, WithSegment(h, segs, s)) && OwnedMap(h2) == OwnedMap(h)
  {
    hide Core, MarksOk, Spare, SegsOk, CapWrites, MayCap, Head, AddWrites, HasAll, OwnedMap, MapsAside,
      MapsOk, TagsOk, Capped, WithRegion, Regions.Clear, CappedSegs;
    var f, e, f0 := First(s), s.End() - TOP_FOOT_SIZE, First(segs[0]);
    var h1 := Capped(h, f0);
    var t := [segs[0].(at := RecordPlace(h) + 16)] + segs[1..];
    CoreTagsOnly(m, b, h, leastAddr);
    AlignsUp(s.base);
    AddHeap(m, m1, m2, b, h, k, leastAddr, segs, maps, s);
    TopMayCap(m, h, segs);
    CapSegs(m, h, segs);
    CapTagsToo(m, m1, m2, b, h, k, leastAddr, segs, maps, s);
    AddSegs(m2, h1, t, s);
    assert [s] + t == WithSegment(h, segs, s);
    CapOwned(m, h, f0);
    NoUsedBefore(m2, h1, f, e);
    AddOwned(m2, h1, f, e);
  }

  lemma AddedRest(m: Mem, m1: Mem, m2: Mem, b: BinState, h: Shape, k: Marks, leastAddr: int,
                  segs: seq<Segment>, maps: Mappings, granted: set<int>, s: Segment)
    requires HeapOk(m, b, h, k, leastAddr, {}) && SpaceOk(m, h, segs, maps, granted) && segs != []
    requires NewBlock(segs, maps, s.base, s.size) && s.End() % 8 == 0 && s.at == 0
    requires Has(granted, s.base, s.size)
    requires First(s) + 16 <= s.End() - TOP_FOOT_SIZE && h.top in h.C && AddWrites(m, m1, m2, h, s)
    ensures MapsOk(m2, maps, WithSegment(h, segs, s)) && HasAll(granted, WithSegment(h, segs, s), maps)
    ensures forall q, a {:trigger LiveWord(h, q, a)} | LiveWord(h, q, a) :: Rd(m2, a) == Rd(m, a)
    ensures forall c, a | c in maps && c <= a < c + maps[c].ChunkBytes(c) :: Rd(m2, a) == Rd(m, a)
  {
    hide Core, MarksOk, Spare, SegsOk, Head, AddWrites, HasAll, LiveWord, MapsOk, TagsOk;
    CoreTagsOnly(m, b, h, leastAddr);
    AlignsUp(s.base);
    TopRegion(m, h, segs);
    HeadFacts(m, h, h.top);
    SegOf(h, segs, 0);
    var apart := BlocksApart(s.base, s.size, segs[0].base, segs[0].size);
    AddWritesPlaces(m, m1, m2, h, s, h.top + h.C[h.top] + 80);
    AddMaps(m, m2, h, segs, maps, granted, s, RecordPlace(h) + 16);
    AddLive(m, m2, h, segs, maps, s);
    assert [s, segs[0].(at := RecordPlace(h) + 16)] + segs[1..] == WithSegment(h, segs, s);
  }

  lemma CapTagsToo(m: Mem, m1: Mem, m2: Mem, b: BinState, h: Shape, k: Marks, leastAddr: int, segs: seq<Segment>,
                   maps: Mappings, s: Segment)
    requires HeapOk(m, b, h, k, leastAddr, {}) && SegsOk(h, segs) && segs != [] && s.base <= First(s)
    requires NewBlock(segs, maps, s.base, s.size) && First(s) + 16 <= s.End() - TOP_FOOT_SIZE && h.top in h.C
      && AddWrites(m, m1, m2, h, s)
    ensures TagsOk(m2, Capped(h, First(segs[0])))
    ensures Regions.Clear(Capped(h, First(segs[0])), First(s), s.End() - TOP_FOOT_SIZE + 16)
  {
    hide Core, MarksOk, Spare, SegsOk, CapWrites, MayCap, Head;
    CoreTagsOnly(m, b, h, leastAddr);
    TopMayCap(m, h, segs);
    NewIsForeign(m, h, segs, maps, s.base, s.size);
    ElsewhereHeap(m, m1, b, h, k, leastAddr, {});
    CoreTagsOnly(m1, b, h, leastAddr);
    CapTags(m1, m2, h, First(segs[0]));
    CapIsClear(m, h, segs, maps, s);
  }

  lemma NoUsedBefore(m: Mem, h: Shape, f: int, e: int)
    requires TagsOk(m, h) && Regions.Clear(h, f, e + 16) && f < e
    ensures f !in h.C && forall q | q in h.C && q in h.U :: q + h.C[q] != f
  {
    hide RegionOk, TreeState.Apart, ChunkOk;
    assert f !in h.C by { if f in h.C { HeadFacts(m, h, f); } }
    forall q | q in h.C ensures q + h.C[q] != f {
      FootFacts(m, h, q);
      if q + h.C[q] == f {
        var g :| g in h.R && h.R[g] == f;
        RegionFirst(m, h, g);
      }
    }
  }

  lemma AddMaps(m: Mem, m2: Mem, h: Shape, segs: seq<Segment>, maps: Mappings, granted: set<int>, s: Segment, at: int)
    requires MapsOk(m, maps, segs) && HasAll(granted, segs, maps) && segs != [] && NewBlock(segs, maps, s.base, s.size)
    requires Has(granted, s.base, s.size)
    requires forall a {:trigger Rd(m2, a)} | !SegHolds(segs[0], a) && !SegHolds(s, a) :: Rd(m2, a) == Rd(m, a)
    ensures var t := [s, segs[0].(at := at)] + segs[1..];
      MapsOk(m2, maps, t) && HasAll(granted, t, maps)
    ensures forall c, a | c in maps && c <= a < c + maps[c].ChunkBytes(c) :: Rd(m2, a) == Rd(m, a)
  {
    var t := [s, segs[0].(at := at)] + segs[1..];
    forall c, j | c in maps && 0 <= j < |t| ensures BlocksApart(maps[c].base, maps[c].size, t[j].base, t[j].size) {
      if j == 0 {
        assert BlocksApart(s.base, s.size, maps[c].base, maps[c].size);
      } else {
        assert BlocksApart(maps[c].base, maps[c].size, segs[j - 1].base, segs[j - 1].size);
      }
    }
    forall a | forall i | 0 <= i < |t| :: !SegHolds(t[i], a) ensures Rd(m2, a) == Rd(m, a) {
      assert !SegHolds(t[0], a) && !SegHolds(t[1], a);
    }
    MapsStay(m, m2, maps, segs, t);
    forall i | 0 <= i < |t| ensures Has(granted, t[i].base, t[i].size) {
      if i >= 1 { assert Has(granted, segs[i - 1].base, segs[i - 1].size); }
    }
  }

  lemma AddLive(m: Mem, m2: Mem, h: Shape, segs: seq<Segment>, maps: Mappings, s: Segment)
    requires TagsOk(m, h) && SegsOk(h, segs) && segs != [] && NewBlock(segs, maps, s.base, s.size) && h.top in h.C
    requires forall a {:trigger Rd(m2, a)} | !(h.top + 8 <= a < h.top + h.C[h.top] + 80)
      && !SegHolds(s, a) :: Rd(m2, a) == Rd(m, a)
    ensures forall q, a {:trigger LiveWord(h, q, a)} | LiveWord(h, q, a) :: Rd(m2, a) == Rd(m, a)
  {
    hide TagsOk, SegsOk;
    TopMayCap(m, h, segs);
    ApartOfTop(m, h) by { TopRegion(m, h, segs); }
    TopRegion(m, h, segs);
    forall q, a {:trigger LiveWord(h, q, a)} | LiveWord(h, q, a) ensures Rd(m2, a) == Rd(m, a) {
      var i := ChunkHeld(m, h, segs, q);
      assert BlocksApart(s.base, s.size, segs[i].base, segs[i].size);
      assert q != h.top;
    }
  }

  // ---------------------------------------------------------------------------------------
  // A segment is given back

  function WithoutSegment(segs: seq<Segment>, i: nat): seq<Segment>
    requires i < |segs|
  {
    segs[..i] + segs[i + 1..]
  }

  /** What release_unused_segments tests means that the segment holds one free chunk and its record. */
  lemma DropsWhole(m: Mem, h: Shape, segs: seq<Segment>, i: nat)
    requires TagsOk(m, h) && SegsOk(h, segs) && 1 <= i < |segs|
    requires var f := First(segs[i]); f in h.C && f !in h.U && f + h.C[f] >= segs[i].End() - TOP_FOOT_SIZE
    ensures MayDrop(h, First(segs[i])) && First(segs[i]) != h.top
  {
    hide TagsOk, SegsOk;
    var f := First(segs[i]);
    SegOf(h, segs, i);
    RegionFirst(m, h, f);
    TopNotThere(m, h, segs, i);
    FreeBeforeRecord(m, h, f);
  }

  lemma TopNotThere(m: Mem, h: Shape, segs: seq<Segment>, i: nat)
    requires TagsOk(m, h) && SegsOk(h, segs) && 1 <= i < |segs|
    ensures First(segs[i]) != h.top
  {
    hide TagsOk, SegsOk;
    TopRegion(m, h, segs);
    FirstsDiffer(m, h, segs, 0, i);
    SegOf(h, segs, i);
    SegOf(h, segs, 0);
    HeadFacts(m, h, h.top);
    RegionFirst(m, h, First(segs[i]));
    ApartSegs(h, segs);
    AlignsUp(segs[i].base);
    var apart := BlocksApart(segs[0].base, segs[0].size, segs[i].base, segs[i].size);
  }

  lemma FreeBeforeRecord(m: Mem, h: Shape, f: int)
    requires TagsOk(m, h) && f in h.R && f in h.C && f !in h.U && f != h.top
    requires h.R[f] - 48 in h.C && h.R[f] - 48 in h.U && h.C[h.R[f] - 48] == 48 && f + h.C[f] >= h.R[f] - 48
    ensures MayDrop(h, f)
  {
    hide ChunkOk, RegionOk;
    RegionFirst(m, h, f);
    NextFacts(m, h, f);
    HeadFacts(m, h, f);
    var n := f + h.C[f];
    HeadFacts(m, h, n);
    HeadFacts(m, h, h.R[f] - 48);
  }

  lemma DropOwned(m: Mem, h: Shape, f: int)
    requires TagsOk(m, h) && MayDrop(h, f)
    ensures OwnedMap(Dropped(h, f)) == OwnedMap(h)
  {
    hide TagsOk, Owned, OwnedAlike, Dropped;
    assert f in h.C;
    var h' := Dropped(h, f);
    forall q ensures OwnedAlike(h, h', q) {
      DropOwnedAt(m, h, f, q);
    }
    OwnedIff(h, h');
  }

  lemma DropOwnedAt(m: Mem, h: Shape, f: int, q: int)
    requires TagsOk(m, h) && MayDrop(h, f)
    ensures OwnedAlike(h, Dropped(h, f), q)
  {
    hide TagsOk;
    var r := f + h.C[f];
    RegionFirst(m, h, f);
    if q in h.C && q in h.U {
      HeadFacts(m, h, q);
      FirstHasNoPrevious(m, h, f, q);
      if q + h.C[q] == r { SameEnd(m, h, q, f); }
    }
  }

  lemma DropSegs(m: Mem, h: Shape, segs: seq<Segment>, i: nat)
    requires TagsOk(m, h) && SegsOk(h, segs) && 1 <= i < |segs| && MayDrop(h, First(segs[i])) && First(segs[i]) != h.top
    ensures SegsOk(Dropped(h, First(segs[i])), WithoutSegment(segs, i))
  {
    hide TagsOk, MayDrop, SegsApart, AllRegions;
    var f, t := First(segs[i]), WithoutSegment(segs, i);
    SegOf(h, segs, i);
    RegionFirst(m, h, f);
    var h' := Dropped(h, f);
    DropPlaces(m, h, f);
    TopRegion(m, h, segs);
    FirstsDiffer(m, h, segs, 0, i);
    forall j | 0 <= j < |t| ensures SegOk(h', t[j]) && (j >= 1 ==> RecordOk(h', t[j])) {
      DropSeg(m, h, segs, i, if j < i then j else j + 1);
    }
    DropExtents(m, h, segs, i);
    DropTop(m, h, f);
  }

  lemma DropTop(m: Mem, h: Shape, f: int)
    requires TagsOk(m, h) && MayDrop(h, f) && h.top in h.C
    ensures TopEnd(Dropped(h, f)) == TopEnd(h)
  {
    hide TagsOk;
    DropPlaces(m, h, f);
  }

  lemma DropSeg(m: Mem, h: Shape, segs: seq<Segment>, i: nat, j: nat)
    requires TagsOk(m, h) && SegsOk(h, segs) && 1 <= i < |segs| && j < |segs| && j != i && MayDrop(h, First(segs[i]))
    ensures SegOk(Dropped(h, First(segs[i])), segs[j]) && (j >= 1 ==> RecordOk(Dropped(h, First(segs[i])), segs[j]))
  {
    hide TagsOk, SegsOk;
    var f := First(segs[i]);
    SegOf(h, segs, j);
    if j < i { FirstsDiffer(m, h, segs, j, i); } else { FirstsDiffer(m, h, segs, i, j); }
    RegionFirst(m, h, f);
    RegionFirst(m, h, First(segs[j]));
    DropPlaces(m, h, f);
  }

  lemma DropExtents(m: Mem, h: Shape, segs: seq<Segment>, i: nat)
    requires TagsOk(m, h) && SegsOk(h, segs) && 1 <= i < |segs| && First(segs[i]) in h.C
    ensures SegsApart(WithoutSegment(segs, i)) && AllRegions(Dropped(h, First(segs[i])), WithoutSegment(segs, i))
  {
    hide TagsOk;
    var f, t := First(segs[i]), WithoutSegment(segs, i);
    forall j, k | 0 <= j < k < |t| ensures BlocksApart(t[j].base, t[j].size, t[k].base, t[k].size) {
      var x, y := if j < i then j else j + 1, if k < i then k else k + 1;
      assert BlocksApart(segs[x].base, segs[x].size, segs[y].base, segs[y].size);
    }
    forall g | g in Dropped(h, f).R ensures exists j :: 0 <= j < |t| && First(t[j]) == g {
      var j := RegionHeld(m, h, segs, g);
      assert First(t[if j < i then j else j - 1]) == g;
    }
  }

  lemma DropSpace(m: Mem, h: Shape, segs: seq<Segment>, maps: Mappings, granted: set<int>, i: nat)
    requires TagsOk(m, h) && SpaceOk(m, h, segs, maps, granted) && 1 <= i < |segs|
    requires MayDrop(h, First(segs[i])) && First(segs[i]) != h.top
    ensures SpaceOk(m, Dropped(h, First(segs[i])), WithoutSegment(segs, i), maps,
                    granted - Bytes(segs[i].base, segs[i].size))
    ensures OwnedMap(Dropped(h, First(segs[i]))) == OwnedMap(h)
  {
    hide TagsOk, SegsOk, MayDrop;
    var f, t := First(segs[i]), WithoutSegment(segs, i);
    DropSegs(m, h, segs, i);
    DropOwned(m, h, f);
    ApartSegs(h, segs);
    forall c, j | c in maps && 0 <= j < |t| ensures BlocksApart(maps[c].base, maps[c].size, t[j].base, t[j].size) {
      assert t[j] == segs[if j < i then j else j + 1];
    }
    forall j | 0 <= j < |t| ensures Has(granted - Bytes(segs[i].base, segs[i].size), t[j].base, t[j].size) {
      var k := if j < i then j else j + 1;
      assert t[j] == segs[k];
      assert Has(granted, segs[k].base, segs[k].size);
      if k < i {
        assert BlocksApart(segs[k].base, segs[k].size, segs[i].base, segs[i].size);
      } else {
        assert BlocksApart(segs[i].base, segs[i].size, segs[k].base, segs[k].size);
      }
    }
    forall c | c in maps ensures Has(granted - Bytes(segs[i].base, segs[i].size), maps[c].base, maps[c].size) {
      assert BlocksApart(maps[c].base, maps[c].size, segs[i].base, segs[i].size);
    }
  }

  // ---------------------------------------------------------------------------------------
  // Mapped chunks come and go

  /** A new mapped chunk. */
  lemma MapAdded(m: Mem, m': Mem, h: Shape, segs: seq<Segment>, maps: Mappings, granted: set<int>, granted': set<int>,
                 c: int, x: Mapping)
    requires TagsOk(m, h) && SpaceOk(m, h, segs, maps, granted) && NewBlock(segs, maps, x.base, x.size)
    requires forall a {:trigger Rd(m', a)} | !(x.base <= a < x.End()) :: Rd(m', a) == Rd(m, a)
    requires MapOk(m', c, x) && granted <= granted' && Has(granted', x.base, x.size)
    ensures SpaceOk(m', h, segs, maps[c := x], granted') && c !in maps && c !in Usable(h, maps)
    ensures Usable(h, maps[c := x]) == Usable(h, maps)[c := x.ChunkBytes(c) - MMAP_CHUNK_OVERHEAD]
    ensures Kept(m, Usable(h, maps), m', Usable(h, maps[c := x]), {})
  {
    hide TagsOk, SegsOk;
    var maps' := maps[c := x];
    NotMapped(m, segs, maps, c, x);
    forall d | d in maps' ensures MapOk(m', d, maps'[d]) {
      if d != c {
        assert MapOk(m, d, maps[d]);
        assert BlocksApart(x.base, x.size, maps[d].base, maps[d].size);
      }
    }
    assert MapsAside(maps', segs);
    assert MapsApart(maps');
    assert c !in h.C by { MappedNotChunk(m, h, segs, maps, c, x); }
    MappedUsable(h, maps, c, x);
    KeptBesides(m, m', h, segs, maps, c, x);
  }

  lemma NotMapped(m: Mem, segs: seq<Segment>, maps: Mappings, c: int, x: Mapping)
    requires MapsOk(m, maps, segs) && NewBlock(segs, maps, x.base, x.size) && x.base <= c < x.End()
    ensures c !in maps
  {
    if c in maps { MapHolds(m, segs, maps, c); }
  }

  lemma MapHolds(m: Mem, segs: seq<Segment>, maps: Mappings, c: int)
    requires MapsOk(m, maps, segs) && c in maps
    ensures maps[c].base <= c < maps[c].End() && maps[c].base + maps[c].size == maps[c].End()
  {
    assert MapOk(m, c, maps[c]);
  }

  lemma MappedNotChunk(m: Mem, h: Shape, segs: seq<Segment>, maps: Mappings, c: int, x: Mapping)
    requires TagsOk(m, h) && SegsOk(h, segs) && NewBlock(segs, maps, x.base, x.size) && x.base <= c < x.End()
    ensures c !in h.C
  {
    hide TagsOk, SegsOk;
    if c in h.C {
      var i := ChunkHeld(m, h, segs, c);
      HeadFacts(m, h, c);
    }
  }

  lemma MappedUsable(h: Shape, maps: Mappings, c: int, x: Mapping)
    requires c !in h.C && c !in maps
    ensures c !in Usable(h, maps)
      && Usable(h, maps[c := x]) == Usable(h, maps)[c := x.ChunkBytes(c) - MMAP_CHUNK_OVERHEAD]
  {
    EqualIfSame(Usable(h, maps[c := x]), Usable(h, maps)[c := x.ChunkBytes(c) - MMAP_CHUNK_OVERHEAD]);
  }

  /** Writes inside a new block concern no payload. */
  lemma KeptBesides(m: Mem, m': Mem, h: Shape, segs: seq<Segment>, maps: Mappings, c: int, x: Mapping)
    requires TagsOk(m, h) && SegsOk(h, segs) && MapsOk(m, maps, segs)
      && NewBlock(segs, maps, x.base, x.size) && c !in maps
    requires forall a {:trigger Rd(m', a)} | !(x.base <= a < x.End()) :: Rd(m', a) == Rd(m, a)
    requires c !in h.C
    ensures Kept(m, Usable(h, maps), m', Usable(h, maps[c := x]), {})
  {
    hide TagsOk, SegsOk, OwnedMap;
    MappedUsable(h, maps, c, x);
    forall q, a {:trigger Payload(Usable(h, maps), q, a)} | Payload(Usable(h, maps), q, a)
      ensures Rd(m', a) == Rd(m, a) {
      if q in MappedMap(maps) {
        MappedPayload(h, maps, q, a);
        assert MapOk(m, q, maps[q]);
        assert BlocksApart(x.base, x.size, maps[q].base, maps[q].size);
      } else {
        assert Payload(OwnedMap(h), q, a);
        OwnedPayload(h, q, a);
        var i := ChunkHeld(m, h, segs, q);
        assert BlocksApart(x.base, x.size, segs[i].base, segs[i].size);
      }
    }
  }

  /** A mapped chunk is unmapped. */
  lemma MapRemoved(m: Mem, h: Shape, segs: seq<Segment>, maps: Mappings, granted: set<int>, c: int)
    requires TagsOk(m, h) && SpaceOk(m, h, segs, maps, granted) && c in maps
    ensures SpaceOk(m, h, segs, maps - {c}, granted - Bytes(maps[c].base, maps[c].size))
    ensures c !in h.C && Usable(h, maps - {c}) == Usable(h, maps) - {c}
    ensures Kept(m, Usable(h, maps), m, Usable(h, maps - {c}), {c})
  {
    hide TagsOk, SegsOk, MapOk, HasAll, MappedMap, OwnedMap;
    MapNoChunk(m, h, maps, segs, c);
    StillHas(m, h, segs, maps, granted, c);
    UsableRemoved(h, maps, c);
  }

  lemma StillHas(m: Mem, h: Shape, segs: seq<Segment>, maps: Mappings, granted: set<int>, c: int)
    requires HasAll(granted, segs, maps) && MapsApart(maps) && MapsAside(maps, segs) && c in maps
    ensures HasAll(granted - Bytes(maps[c].base, maps[c].size), segs, maps - {c})
  {
    var g := granted - Bytes(maps[c].base, maps[c].size);
    forall i | 0 <= i < |segs| ensures Has(g, segs[i].base, segs[i].size) {
      assert Has(granted, segs[i].base, segs[i].size);
      assert BlocksApart(maps[c].base, maps[c].size, segs[i].base, segs[i].size);
    }
    forall d | d in maps - {c} ensures Has(g, maps[d].base, maps[d].size) {
      assert BlocksApart(maps[c].base, maps[c].size, maps[d].base, maps[d].size);
    }
  }

  lemma UsableRemoved(h: Shape, maps: Mappings, c: int)
    requires c in maps && c !in h.C
    ensures Usable(h, maps - {c}) == Usable(h, maps) - {c}
  {
    EqualIfSame(Usable(h, maps - {c}), Usable(h, maps) - {c});
  }
}
