/** The space the heap lies in: segments and directly mapped regions (malloc.c, struct malloc_segment and
    "Direct-mmapping chunks"). */
module Segments {
  import opened ChunkMemory
  import opened Chunks
  import opened HeapState
  import opened System
  /** A segment; at is the address of its record, 0 for the one in malloc_state. */
  datatype Segment = Segment(base: int, size: int, mmapped: bool, at: int) {
    function End(): int {
      base + size
    }
  }

  /** A directly mapped region. */
  datatype Mapping = Mapping(base: int, size: int) {
    function End(): int {
      base + size
    }

    /** The size in the head word of a chunk at c. */
    function ChunkBytes(c: int): int {
      End() - c - MMAP_FOOT_PAD
    }
  }

  /** The mapped regions by the chunk in each. */
  type Mappings = map<int, Mapping>

  const MMAP_FOOT_PAD: int := 32

  /** align_offset */
  function AlignOffset(a: int): int {
    if a % 16 == 0 then 0 else 16 - a % 16
  }

  /** align_as_chunk */
  function AlignAsChunk(a: int): int {
    a + AlignOffset(a + 16)
  }

  lemma AlignsUp(a: int)
    ensures var p := AlignAsChunk(a); p % 16 == 0 && a <= p < a + 16 && (a % 16 == 0 ==> p == a)
  {
  }

  // ---------------------------------------------------------------------------------------
  // Where segments are

  predicate SegHolds(s: Segment, a: int) {
    s.base <= a < s.End()
  }

  function First(s: Segment): int {
    AlignAsChunk(s.base)
  }

  /** One region of the heap lies in the segment, with room for fenceposts behind it. */
  predicate SegOk(h: Shape, s: Segment) {
    && HEAP_MIN <= s.base && s.End() <= LIMIT && s.End() % 8 == 0
    && First(s) in h.R && h.R[First(s)] + 32 <= s.End()
  }

  /** Segments other than the first end with the chunk that holds their record. */
  predicate RecordOk(h: Shape, s: Segment) {
    && First(s) in h.R
    && var r := h.R[First(s)] - 48; r in h.C && r in h.U && h.C[r] == 48 && s.at == r + 16
  }

  predicate BlocksApart(b: int, n: int, c: int, k: int) {
    b + n <= c || c + k <= b
  }

  predicate SegsApart(segs: seq<Segment>) {
    forall i, j | 0 <= i < j < |segs| :: BlocksApart(segs[i].base, segs[i].size, segs[j].base, segs[j].size)
  }

  /** Every region lies in a segment. */
  ghost predicate AllRegions(h: Shape, segs: seq<Segment>) {
    forall f | f in h.R :: exists i :: 0 <= i < |segs| && First(segs[i]) == f
  }

  ghost predicate SegsOk(h: Shape, segs: seq<Segment>) {
    && (segs == [] <==> h.top == 0)
    && (forall i | 0 <= i < |segs| :: SegOk(h, segs[i]))
    && (segs != [] ==> h.R[First(segs[0])] == TopEnd(h) == segs[0].End() - TOP_FOOT_SIZE && segs[0].at == 0)
    && (forall i | 1 <= i < |segs| :: RecordOk(h, segs[i]))
    && SegsApart(segs) && AllRegions(h, segs)
  }

  // ---------------------------------------------------------------------------------------
  // Mapped chunks

  /** The tags of a mapped chunk: both use bits clear, the offset in prev_foot, a fencepost behind. */
  predicate MapOk(m: Mem, c: int, x: Mapping) {
    var s := x.ChunkBytes(c);
    && HEAP_MIN <= x.base && x.End() <= LIMIT && x.base <= c && x.base % 16 == 0 && c % 16 == 0 && s % 16 == 0
    && s >= MIN_CHUNK_SIZE
    && Rd(m, c) == c - x.base && Rd(m, c + 8) == s && Rd(m, c + s + 8) == FENCEPOST_HEAD
  }

  predicate MapsApart(maps: Mappings) {
    forall c, d | c in maps && d in maps
      && c != d :: BlocksApart(maps[c].base, maps[c].size, maps[d].base, maps[d].size)
  }

  predicate MapsAside(maps: Mappings, segs: seq<Segment>) {
    forall c, j | c in maps && 0 <= j < |segs| :: BlocksApart(maps[c].base, maps[c].size, segs[j].base, segs[j].size)
  }

  predicate MapsOk(m: Mem, maps: Mappings, segs: seq<Segment>) {
    (forall c | c in maps :: MapOk(m, c, maps[c])) && MapsApart(maps) && MapsAside(maps, segs)
  }

  /** The process has the memory. */
  predicate Has(granted: set<int>, p: int, n: int) {
    forall a | p <= a < p + n :: a in granted
  }

  predicate HasAll(granted: set<int>, segs: seq<Segment>, maps: Mappings) {
    && (forall i | 0 <= i < |segs| :: Has(granted, segs[i].base, segs[i].size))
    && (forall c | c in maps :: Has(granted, maps[c].base, maps[c].size))
  }

  /** Everything about the space. */
  ghost predicate SpaceOk(m: Mem, h: Shape, segs: seq<Segment>, maps: Mappings, granted: set<int>) {
    SegsOk(h, segs) && MapsOk(m, maps, segs) && HasAll(granted, segs, maps)
  }

  // ---------------------------------------------------------------------------------------
  // Sizes

  function SegTotal(segs: seq<Segment>): int {
    if segs == [] then 0 else segs[0].size + SegTotal(segs[1..])
  }

  ghost function SizesOf(maps: Mappings, chunks: set<int>): int
    requires chunks <= maps.Keys
  {
    if c :| c in chunks then maps[c].size + SizesOf(maps, chunks - {c}) else 0
  }

  ghost function MapTotal(maps: Mappings): int {
    SizesOf(maps, maps.Keys)
  }

  lemma {:induction false} SegTotalUpdate(segs: seq<Segment>, i: nat, s: Segment)
    requires i < |segs|
    ensures SegTotal(segs[i := s]) == SegTotal(segs) - segs[i].size + s.size
  {
    if i > 0 {
      SegTotalUpdate(segs[1..], i - 1, s);
      assert segs[i := s][1..] == segs[1..][i - 1 := s];
    } else {
      assert segs[i := s][1..] == segs[1..];
    }
  }

  lemma {:induction false} SegTotalWithout(segs: seq<Segment>, i: nat)
    requires i < |segs|
    ensures SegTotal(segs[..i] + segs[i + 1..]) == SegTotal(segs) - segs[i].size
  {
    var t := segs[..i] + segs[i + 1..];
    if i > 0 {
      SegTotalWithout(segs[1..], i - 1);
      assert t[1..] == segs[1..][..i - 1] + segs[1..][i..];
    } else {
      assert t == segs[1..];
    }
  }

  /** Any mapping may be counted first. */
  lemma {:induction false} SizesPick(maps: Mappings, chunks: set<int>, c: int)
    requires chunks <= maps.Keys && c in chunks
    ensures SizesOf(maps, chunks) == maps[c].size + SizesOf(maps, chunks - {c})
    decreases chunks
  {
    var d :| d in chunks && SizesOf(maps, chunks) == maps[d].size + SizesOf(maps, chunks - {d});
    if d != c {
      SizesPick(maps, chunks - {d}, c);
      SizesPick(maps, chunks - {c}, d);
      assert chunks - {d} - {c} == chunks - {c} - {d};
    }
  }

  lemma {:induction false} SizesSame(maps: Mappings, maps': Mappings, chunks: set<int>)
    requires chunks <= maps.Keys && chunks <= maps'.Keys && forall c | c in chunks :: maps'[c] == maps[c]
    ensures SizesOf(maps', chunks) == SizesOf(maps, chunks)
    decreases chunks
  {
    if c :| c in chunks {
      SizesPick(maps, chunks, c);
      SizesPick(maps', chunks, c);
      SizesSame(maps, maps', chunks - {c});
    }
  }

  lemma MapTotalAdd(maps: Mappings, c: int, x: Mapping)
    requires c !in maps
    ensures MapTotal(maps[c := x]) == MapTotal(maps) + x.size
  {
    var maps' := maps[c := x];
    SizesPick(maps', maps'.Keys, c);
    assert maps'.Keys - {c} == maps.Keys;
    SizesSame(maps, maps', maps.Keys);
  }

  lemma MapTotalRemove(maps: Mappings, c: int)
    requires c in maps
    ensures MapTotal(maps - {c}) == MapTotal(maps) - maps[c].size
  {
    var maps' := maps - {c};
    SizesPick(maps, maps.Keys, c);
    assert maps.Keys - {c} == maps'.Keys;
    SizesSame(maps, maps', maps'.Keys);
  }

  lemma SegTotalPush(segs: seq<Segment>, s: Segment)
    ensures SegTotal([s] + segs) == s.size + SegTotal(segs)
  {
    assert ([s] + segs)[1..] == segs;
  }
}
