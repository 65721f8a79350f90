/** Memory goes back to the system (malloc.c, release_unused_segments and sys_trim): heap and space afterwards. */
module Releasing {
  import opened Words
  import opened ChunkMemory
  import opened AllBins
  import opened Chunks
  import opened HeapState
  import opened HeapInvariant
  import opened Carving
  import opened Regions
  import opened Segments
  import opened System
  import opened Payloads
  import opened SpaceSteps
  import opened Spaces
  import opened HeapFacts
  import opened Installing
  import opened HeapModel
  import opened Freeing
  import opened BulkFreeing
  import opened Heap

  /** What the head of the first chunk of a segment says. */
  lemma FirstChunk(m: Mem, b: BinState, h: Shape, k: Marks, leastAddr: int, segs: seq<Segment>, i: nat)
    requires HeapOk(m, b, h, k, leastAddr, {}) && SegsOk(h, segs) && i < |segs|
    ensures var p := First(segs[i]);
      && p in h.C && ChunkSize(Rd(m, p + 8)) == h.C[p] && h.C[p] > 0 && (IsInuse(Rd(m, p + 8)) <==> p in h.U)
      && segs[i].base <= p < segs[i].base + 16
    ensures Core(m, b, h, leastAddr)
  {
    hide TagsOk, SegsOk, Head, ChunkSize, IsInuse;
    TagsIn(m, b, h, k, leastAddr, {});
    SegOf(h, segs, i);
    AlignsUp(segs[i].base);
    RegionFirst(m, h, First(segs[i]));
    HeadFacts(m, h, First(segs[i]));
  }

  /** A segment of whole units is not small. */
  lemma UnitsAreLarge(n: nat, unit: nat)
    requires n > 0 && unit > 0 && Whole(n, unit)
    ensures n >= unit
  {
    if n < unit { DivMod(0, unit, n); }
  }

  /** The chunk that release_unused_segments finds: it may be given back, and it is large. */
  lemma Unused(m: Mem, b: BinState, h: Shape, k: Marks, leastAddr: int, segs: seq<Segment>, maps: Mappings,
               granted: set<int>, unit: nat, noncontiguous: bool, i: nat)
    requires HeapOk(m, b, h, k, leastAddr, {}) && unit >= 4096
      && Laid(m, h, leastAddr, segs, maps, granted, unit, noncontiguous)
    requires 1 <= i < |segs| && segs[i].mmapped
    requires var p := First(segs[i]); p in h.C && p !in h.U && p + h.C[p] >= segs[i].End() - TOP_FOOT_SIZE
    ensures var p := First(segs[i]);
      && MayDrop(h, p) && p != h.top && h.C[p] >= 256 && (p != k.dv ==> p in Binned(b)) && segs[i].size > 0
      && (p == k.dv ==> k.dv != 0)
  {
    hide TagsOk, SegsOk, MapsOk, HasAll, MayDrop, Core, Binned;
    var p := First(segs[i]);
    TagsIn(m, b, h, k, leastAddr, {});
    DropsWhole(m, h, segs, i);
    HeldIsSized(m, h, segs, maps);
    UnitsAreLarge(segs[i].size, unit);
    AlignsUp(segs[i].base);
    HeadFacts(m, h, p);
    if p != k.dv && p !in Binned(b) { var had := p in Spare(b, h); }
  }

  /** The segment is gone. */
  lemma ReleasedAll(m: Mem, b: BinState, h: Shape, k: Marks, leastAddr: int, segs: seq<Segment>, maps: Mappings,
                    granted: set<int>, unit: nat, noncontiguous: bool, i: nat)
    requires unit > 0 && 1 <= i < |segs| && HeapOk(m, b, h, k, leastAddr, {First(segs[i])})
    requires Laid(m, h, leastAddr, segs, maps, granted, unit, noncontiguous) && MayDrop(h, First(segs[i]))
      && First(segs[i]) != h.top
    ensures First(segs[i]) in h.C
    ensures var h' := Dropped(h, First(segs[i]));
      && HeapOk(m, b, h', k, leastAddr, {})
      && Laid(m, h', leastAddr, WithoutSegment(segs, i), maps, granted - Bytes(segs[i].base, segs[i].size),
              unit, noncontiguous)
      && Usable(h', maps) == Usable(h, maps)
      && SegTotal(WithoutSegment(segs, i)) == SegTotal(segs) - segs[i].size
  {
    hide HeapOk, TagsOk, SegsOk, MapsOk, HasAll, Dropped, SegTotal;
    TagsIn(m, b, h, k, leastAddr, {First(segs[i])});
    DropHeap(m, b, h, k, leastAddr, First(segs[i]));
    DropSpace(m, h, segs, maps, granted, i);
    SegTotalWithout(segs, i);
    var t := WithoutSegment(segs, i);
    forall j | 0 <= j < |t| && t[j].mmapped ensures noncontiguous && Whole(t[j].size, unit) {
      assert t[j] == segs[if j < i then j else j + 1];
    }
  }

  lemma DvTaken(m: Mem, b: BinState, h: Shape, k: Marks, leastAddr: int)
    requires HeapOk(m, b, h, k, leastAddr, {}) && k.dv != 0
    ensures HeapOk(m, b, h, k.(dv := 0, dvsize := 0), leastAddr, {k.dv})
  {
    hide HeapOk;
    DvReleased(m, b, h, k, leastAddr, {});
    assert {} + {k.dv} == {k.dv};
  }

  lemma LaidSegs(m: Mem, h: Shape, leastAddr: int, segs: seq<Segment>, maps: Mappings, granted: set<int>, unit: nat,
                 noncontiguous: bool)
    requires unit > 0 && Laid(m, h, leastAddr, segs, maps, granted, unit, noncontiguous)
    ensures SegsOk(h, segs) && SpaceOk(m, h, segs, maps, granted) && MapsOk(m, maps, segs) && MapsAbove(maps, leastAddr)
  {
  }

  /** What release_unused_segments looks for: a segment with one free chunk that reaches to its record. */
  predicate IsUnused(h: Shape, s: Segment) {
    var f := First(s);
    s.mmapped && f in h.C && f !in h.U && f + h.C[f] >= s.End() - TOP_FOOT_SIZE
  }

  /** Chunks went, and the others are as they were. */
  predicate Fewer(h: Shape, h': Shape) {
    forall p | p in h'.C :: p in h.C && h'.C[p] == h.C[p] && (p in h'.U <==> p in h.U)
  }

  /** Every unused segment but the first was offered to the system, which took those that are gone. */
  predicate AllOffered(h: Shape, segs: seq<Segment>, segs': seq<Segment>, calls: seq<SysCall>) {
    forall j | 1 <= j < |segs| && IsUnused(h, segs[j]) ::
      MunmapCall(segs[j].base, segs[j].size, segs[j] !in segs') in calls
  }

  /** The segments before the last rest of segs were offered, if they were unused. */
  predicate OfferedTo(h: Shape, segs: seq<Segment>, segs': seq<Segment>, rest: nat, calls: seq<SysCall>) {
    && 1 <= |segs'| - rest && rest < |segs| && segs'[|segs'| - rest..] == segs[|segs| - rest..]
    && forall j | 1 <= j < |segs| - rest && IsUnused(h, segs[j]) ::
         MunmapCall(segs[j].base, segs[j].size, segs[j] !in segs') in calls
  }

  /** No segment is in the list twice. */
  predicate Differ(segs: seq<Segment>) {
    forall i, j | 0 <= i < j < |segs| :: segs[i] != segs[j]
  }

  /** The segments in front of i were offered, if they were unused. */
  predicate Offering(h: Shape, segs: seq<Segment>, segs': seq<Segment>, i: nat, calls: seq<SysCall>) {
    segs != [] ==> Differ(segs) && i <= |segs'| && OfferedTo(h, segs, segs', |segs'| - i, calls)
  }

  lemma StartOffers(h: Shape, segs: seq<Segment>)
    requires Differ(segs)
    ensures Offering(h, segs, segs, 1, []) && OnlyUnusedGone(h, segs, segs) && Fewer(h, h)
  {
  }

  /** One turn of release_unused_segments. */
  lemma ReleasedOne(h: Shape, segs: seq<Segment>, h1: Shape, segs1: seq<Segment>, h2: Shape, i: nat, done: bool,
                    calls: seq<SysCall>, made: seq<SysCall>)
    requires OnlyUnusedGone(h, segs, segs1) && Fewer(h, h1) && Fewer(h1, h2) && Offering(h, segs, segs1, i, calls)
    requires 1 <= i < |segs1| && First(segs1[i]) in h1.C && Differ(segs1)
    requires if IsUnused(h1, segs1[i]) then made == [MunmapCall(segs1[i].base, segs1[i].size, done)]
             else made == [] && !done
    ensures var segs2 := if done then WithoutSegment(segs1, i) else segs1;
      && OnlyUnusedGone(h, segs, segs2) && Offering(h, segs, segs2, if done then i else i + 1, calls + made)
    ensures Fewer(h, h2)
  {
    hide OfferedTo, WithoutSegment, IsUnused;
    OneMoreOffered(h, segs, h1, segs1, |segs1| - i, calls, i, done, made);
    WithoutLess(segs1, i);
    if done { OneMoreGone(h, segs, h1, segs1, i); }
  }

  lemma NoneLeft(h: Shape, segs: seq<Segment>, segs': seq<Segment>, i: nat, calls: seq<SysCall>)
    requires Offering(h, segs, segs', i, calls) && i >= |segs'|
    ensures AllOffered(h, segs, segs', calls)
  {
  }

  lemma SegmentsDiffer(m: Mem, b: BinState, h: Shape, k: Marks, leastAddr: int, segs: seq<Segment>, maps: Mappings,
                       granted: set<int>, unit: nat, noncontiguous: bool)
    requires unit > 0 && HeapOk(m, b, h, k, leastAddr, {})
      && Laid(m, h, leastAddr, segs, maps, granted, unit, noncontiguous)
    ensures Differ(segs)
  {
    hide HeapOk, SegsOk, MapsOk, HasAll, Differ;
    TagsIn(m, b, h, k, leastAddr, {});
    SegsDiffer(m, h, segs);
  }

  lemma SegsDiffer(m: Mem, h: Shape, segs: seq<Segment>)
    requires TagsOk(m, h) && SegsOk(h, segs)
    ensures Differ(segs)
  {
    hide TagsOk;
    forall i, j | 0 <= i < j < |segs| ensures segs[i] != segs[j] {
      SegOf(h, segs, i);
      SegOf(h, segs, j);
      RegionFirst(m, h, First(segs[i]));
      AlignsUp(segs[i].base);
      assert BlocksApart(segs[i].base, segs[i].size, segs[j].base, segs[j].size);
    }
  }

  /** One turn of release_unused_segments, on the first of the rest. */
  lemma OneMoreOffered(h: Shape, segs: seq<Segment>, h1: Shape, segs1: seq<Segment>, rest: nat, calls: seq<SysCall>,
                       i: nat, done: bool, made: seq<SysCall>)
    requires OfferedTo(h, segs, segs1, rest, calls) && rest > 0 && i == |segs1| - rest && Fewer(h, h1)
      && First(segs1[i]) in h1.C
    requires Differ(segs) && Differ(segs1)
    requires if IsUnused(h1, segs1[i]) then made == [MunmapCall(segs1[i].base, segs1[i].size, done)]
             else made == [] && !done
    ensures OfferedTo(h, segs, if done then WithoutSegment(segs1, i) else segs1, rest - 1, calls + made)
  {
    var n := |segs| - rest;
    var segs2 := if done then WithoutSegment(segs1, i) else segs1;
    assert segs[n] == segs[n..][0] == segs1[i..][0] == segs1[i];
    assert segs1[i..][1..] == segs1[i + 1..] && segs[n..][1..] == segs[n + 1..];
    assert segs2[|segs2| - (rest - 1)..] == segs1[i + 1..];
    forall j | 1 <= j < n + 1 && IsUnused(h, segs[j])
      ensures MunmapCall(segs[j].base, segs[j].size, segs[j] !in segs2) in calls + made
    {
      if j < n {
        assert segs[j] != segs[n];
        SameMember(segs1, i, done, segs[j]);
      } else {
        GoneIs(segs1, i, done);
        assert MunmapCall(segs[j].base, segs[j].size, done) in made;
      }
    }
  }

  lemma SameMember(segs: seq<Segment>, i: nat, done: bool, s: Segment)
    requires 1 <= i < |segs| && s != segs[i]
    ensures s in (if done then WithoutSegment(segs, i) else segs) <==> s in segs
  {
    hide WithoutSegment;
    WithoutMembers(segs, i);
  }

  lemma GoneIs(segs: seq<Segment>, i: nat, done: bool)
    requires 1 <= i < |segs| && Differ(segs)
    ensures segs[i] !in (if done then WithoutSegment(segs, i) else segs) <==> done
  {
    if done {
      var t := WithoutSegment(segs, i);
      forall j | 0 <= j < |t| ensures t[j] != segs[i] { assert t[j] == segs[if j < i then j else j + 1]; }
    }
  }

  /** The segments that went were unused; the first one stays. */
  predicate OnlyUnusedGone(h: Shape, segs: seq<Segment>, segs': seq<Segment>) {
    && (forall s | s in segs' :: s in segs) && (forall s | s in segs && s !in segs' :: IsUnused(h, s))
    && |segs'| <= |segs| && (segs != [] ==> segs' != [] && segs'[0] == segs[0])
  }

  lemma OneMoreGone(h: Shape, segs: seq<Segment>, h1: Shape, segs1: seq<Segment>, i: nat)
    requires OnlyUnusedGone(h, segs, segs1) && Fewer(h, h1) && 1 <= i < |segs1| && IsUnused(h1, segs1[i])
    ensures OnlyUnusedGone(h, segs, WithoutSegment(segs1, i))
  {
    hide WithoutSegment;
    WithoutMembers(segs1, i);
    WithoutLess(segs1, i);
  }

  lemma DroppedFewer(h: Shape, f: int)
    requires f in h.C
    ensures Fewer(h, Dropped(h, f))
  {
  }

  lemma WithoutMembers(segs: seq<Segment>, i: nat)
    requires 1 <= i < |segs|
    ensures var t := WithoutSegment(segs, i);
      && t[0] == segs[0] && (forall s | s in t :: s in segs) && (forall s | s in segs && s !in t :: s == segs[i])
  {
    var t := WithoutSegment(segs, i);
    forall j | 0 <= j < |segs| && j != i ensures segs[j] in t { assert t[if j < i then j else j - 1] == segs[j]; }
  }

  lemma WithoutLess(segs: seq<Segment>, i: nat)
    requires i < |segs|
    ensures |WithoutSegment(segs, i)| == |segs| - 1
  {
  }

  // ---------------------------------------------------------------------------------------
  // Trimming

  /** How much of top sys_trim tries to give back. */
  function Extra(t: nat, pad: nat, unit: nat): int
    requires unit > 0 && pad < t
  {
    ((t - pad + (unit - 1)) / unit - 1) * unit
  }

  /** The most units that leave top more than the pad. */
  predicate MostUnits(t: int, pad: nat, unit: nat, extra: int)
    requires unit > 0
  {
    Whole(extra, unit) && 0 <= extra < t - pad <= extra + unit
  }

  /** The calls that are to give the last extra bytes of the segment of top back, and how much is gone then. */
  predicate GaveBack(s: Segment, extra: int, calls: seq<SysCall>, released: int) {
    if s.mmapped then
      && calls != [] && calls[0].MremapCall?
      && calls[0] == MremapCall(s.base, s.size, s.size - extra, false, calls[0].result)
      && if calls[0].result != FAIL then
           |calls| == 1 && released == extra
         else
           && |calls| == 2 && calls[1].MunmapCall?
           && calls[1] == MunmapCall(s.base + s.size - extra, extra, calls[1].ok)
           && released == if calls[1].ok then extra else 0
    else
      && calls != [] && calls[0].SbrkCall? && calls[0].n == 0
      && if calls[0].result != s.End() then
           |calls| == 1 && released == 0
         else
           && |calls| == 3 && calls[1].SbrkCall? && calls[1].n == -extra && calls[2].SbrkCall? && calls[2].n == 0
           && released == if calls[1].result == FAIL || calls[2].result == FAIL || calls[2].result >= s.End() then 0
              else s.End() - calls[2].result
  }

  lemma RemapGave(s: Segment, extra: int, r: int)
    requires s.mmapped && r != FAIL
    ensures GaveBack(s, extra, [MremapCall(s.base, s.size, s.size - extra, false, r)], extra)
  {
  }

  lemma UnmapGave(s: Segment, extra: int, ok: bool)
    requires s.mmapped
    ensures GaveBack(s, extra, [MremapCall(s.base, s.size, s.size - extra, false, FAIL)]
                                + [MunmapCall(s.base + (s.size - extra), extra, ok)], if ok then extra else 0)
  {
  }

  lemma BreakGave(s: Segment, extra: int, r: int, e: int)
    requires !s.mmapped
    ensures GaveBack(s, extra, [SbrkCall(0, s.End())] + [SbrkCall(-extra, r), SbrkCall(0, e)],
                     if r == FAIL || e == FAIL || e >= s.End() then 0 else s.End() - e)
  {
  }

  lemma BreakMoved(s: Segment, extra: int, b: int)
    requires !s.mmapped && b != s.End()
    ensures GaveBack(s, extra, [SbrkCall(0, b)], 0)
  {
  }

  /** What sys_trim must have tried: to give the end of top back, and then the unused segments. */
  ghost predicate TriedTrim(h: Shape, segs: seq<Segment>, topsize: int, pad: nat, unit: nat, segs': seq<Segment>,
                            calls: seq<SysCall>)
    requires unit > 0
  {
    && segs != [] && segs' != []
    && if topsize > pad then
         exists i, extra {:trigger calls[..i], MostUnits(topsize, pad, unit, extra)} ::
           && 0 <= i <= |calls| && MostUnits(topsize, pad, unit, extra)
           && GaveBack(segs[0], extra, calls[..i], segs[0].size - segs'[0].size)
           && AllOffered(h, segs, segs', calls[i..])
       else
         segs'[0] == segs[0] && AllOffered(h, segs, segs', calls)
  }

  /** What dlfree must offer to the system when p became free space: with top beyond the threshold, what sys_trim
      tries; with a large chunk binned when the counter runs out, the unused segments; and otherwise nothing. */
  ghost predicate OffersBack(w: Model, w': Model, p: int, segs: seq<Segment>, trimCheck: int, releaseChecks: int,
                             unit: nat, segs': seq<Segment>, calls: seq<SysCall>)
    requires unit > 0 && p in w.h.C
  {
    if GrowsTop(w, p) then
      if w'.k.topsize > trimCheck then
        TriedTrim(w'.h, segs, w'.k.topsize, TOP_FOOT_SIZE, unit, segs', calls)
      else
        calls == []
    else if BinsLarge(w, p) && Wrap(releaseChecks - 1) == 0 then
      AllOffered(w'.h, segs, segs', calls)
    else
      calls == []
  }

  /** The calls that dlfree must make: a mapped chunk is unmapped. */
  ghost predicate GivesBack(w: Model, maps: Mappings, mem: int, segs: seq<Segment>, trimCheck: int, releaseChecks: int,
                            unit: nat, segs': seq<Segment>, lost: set<int>, calls: seq<SysCall>)
    requires unit > 0
  {
    var p := mem - 16;
    if mem == 0 then
      calls == []
    else if p in maps then
      calls == [MunmapCall(maps[p].base, maps[p].size, p !in lost)]
    else
      && Owned(w.h, p) && (forall q | q in w.h.C :: w.h.C[q] >= 0)
      && OffersBack(w, Freed(w, p), p, segs, trimCheck, releaseChecks, unit, segs', calls)
  }

  /** dlfree, from what dispose_chunk found. */
  lemma GivenBack(w: Model, maps: Mappings, p: int, w': Model, after: Aftermath, segs: seq<Segment>, trimCheck: int,
                  releaseChecks: int, unit: nat, segs': seq<Segment>, lost: set<int>, made: seq<SysCall>)
    requires unit > 0 && p > 0 && p !in maps && p in w.h.C && FreesEntry(w, p, w')
      && (after.TopGrew? <==> GrowsTop(w, p)) && (after.LargeBinned? <==> BinsLarge(w, p))
      && (after.TopGrew? ==> after.tsize == w'.k.topsize)
    requires match after
      case TopGrew(tsize) =>
        if tsize > trimCheck then TriedTrim(w'.h, segs, tsize, TOP_FOOT_SIZE, unit, segs', made) else made == []
      case LargeBinned =>
        if Wrap(releaseChecks - 1) == 0 then AllOffered(w'.h, segs, segs', made) else made == []
      case Quiet => made == []
    ensures GivesBack(w, maps, p + 16, segs, trimCheck, releaseChecks, unit, segs', lost, made)
  {
    hide GrowsTop, BinsLarge, Freed, TriedTrim, AllOffered;
  }

  /** If top grows, there is a segment of top. */
  lemma TopStands(m: Mem, b: BinState, w: Model, leastAddr: int, segs: seq<Segment>, maps: Mappings, granted: set<int>,
                  unit: nat, noncontiguous: bool, p: int)
    requires unit > 0 && HeapOk(m, b, w.h, w.k, leastAddr, {}) && Owned(w.h, p) && GrowsTop(w, p)
      && Laid(m, w.h, leastAddr, segs, maps, granted, unit, noncontiguous)
    ensures segs != []
  {
    hide HeapOk, MapsOk, HasAll, TagsOk;
    TagsIn(m, b, w.h, w.k, leastAddr, {});
    TopUnused(m, w.h);
    TopPlace(m, b, w.h, w.k, leastAddr, segs);
  }

  lemma TrimTried(h: Shape, segs: seq<Segment>, topsize: int, pad: nat, unit: nat, segs': seq<Segment>, extra: int,
                  first: seq<SysCall>, rest: seq<SysCall>)
    requires unit > 0 && segs != [] && segs' != [] && topsize > pad && MostUnits(topsize, pad, unit, extra)
      && GaveBack(segs[0], extra, first, segs[0].size - segs'[0].size) && AllOffered(h, segs, segs', rest)
    ensures TriedTrim(h, segs, topsize, pad, unit, segs', first + rest)
  {
    hide GaveBack, AllOffered, MostUnits;
    var calls := first + rest;
    assert calls[..|first|] == first && calls[|first|..] == rest;
  }

  /** The segments behind the first are as they were. */
  predicate OthersStay(h: Shape, segs: seq<Segment>, h': Shape, segs': seq<Segment>) {
    && |segs'| == |segs|
    && forall j | 1 <= j < |segs| :: segs'[j] == segs[j] && (IsUnused(h, segs[j]) ==> IsUnused(h', segs[j]))
  }

  lemma OfferedBefore(h: Shape, segs: seq<Segment>, h1: Shape, segs1: seq<Segment>, segs': seq<Segment>,
                      calls: seq<SysCall>)
    requires OthersStay(h, segs, h1, segs1) && AllOffered(h1, segs1, segs', calls)
    ensures AllOffered(h, segs, segs', calls)
  {
    hide IsUnused;
  }

  lemma NothingStands(h: Shape, segs: seq<Segment>)
    ensures OthersStay(h, segs, h, segs)
  {
    hide IsUnused;
  }

  lemma StaySame(h: Shape, segs: seq<Segment>, h': Shape, segs': seq<Segment>)
    requires OthersStay(h, segs, h', segs')
    ensures |segs'| == |segs|
  {
  }

  /** sys_trim as a whole. */
  lemma Tried(h: Shape, segs: seq<Segment>, h1: Shape, segs1: seq<Segment>, topsize: int, pad: nat, unit: nat,
              segs': seq<Segment>, extra: int, first: seq<SysCall>, rest: seq<SysCall>)
    requires unit > 0 && segs != [] && OthersStay(h, segs, h1, segs1) && OnlyUnusedGone(h1, segs1, segs')
      && AllOffered(h1, segs1, segs', rest)
    requires if topsize > pad then
        MostUnits(topsize, pad, unit, extra) && GaveBack(segs[0], extra, first, segs[0].size - segs1[0].size)
      else segs1 == segs && first == []
    ensures TriedTrim(h, segs, topsize, pad, unit, segs', first + rest)
  {
    hide GaveBack, AllOffered, MostUnits, OthersStay, IsUnused;
    StaySame(h, segs, h1, segs1);
    OfferedBefore(h, segs, h1, segs1, segs', rest);
    if topsize > pad {
      TrimTried(h, segs, topsize, pad, unit, segs', extra, first, rest);
    } else {
      assert first + rest == rest;
    }
  }

  /** The end of top moved. */
  lemma OthersStand(m: Mem, b: BinState, h: Shape, k: Marks, leastAddr: int, segs: seq<Segment>, maps: Mappings,
                    granted: set<int>, unit: nat, noncontiguous: bool, size: int, e: int)
    requires unit > 0 && HeapOk(m, b, h, k, leastAddr, {}) && segs != []
      && Laid(m, h, leastAddr, segs, maps, granted, unit, noncontiguous)
    ensures OthersStay(h, segs, MovedEnd(h, First(segs[0]), e), Resized(segs, 0, segs[0].base, size))
  {
    hide HeapOk, SegsOk, MapsOk, HasAll, OthersStay, MovedEnd, Resized;
    TagsIn(m, b, h, k, leastAddr, {});
    TopAligned(m, b, h, k, leastAddr, segs, maps, granted, unit, noncontiguous);
    OthersStandOff(m, h, segs, size, e);
  }

  lemma OthersStandOff(m: Mem, h: Shape, segs: seq<Segment>, size: int, e: int)
    requires TagsOk(m, h) && SegsOk(h, segs) && segs != [] && h.top in h.C && SegHolds(segs[0], h.top)
    ensures OthersStay(h, segs, MovedEnd(h, First(segs[0]), e), Resized(segs, 0, segs[0].base, size))
  {
    hide TagsOk;
    forall j | 1 <= j < |segs| ensures First(segs[j]) != h.top {
      SegOf(h, segs, j);
      RegionFirst(m, h, First(segs[j]));
      AlignsUp(segs[j].base);
      assert BlocksApart(segs[0].base, segs[0].size, segs[j].base, segs[j].size);
    }
  }

  /** Whole units, and not all of what is above the pad. */
  lemma ExtraUnits(t: nat, pad: nat, unit: nat)
    requires 4096 <= unit && unit % 16 == 0 && pad < t
    ensures var extra := Extra(t, pad, unit);
      0 <= extra < t - pad && Whole(extra, unit) && extra % 16 == 0 && MostUnits(t, pad, unit, extra)
  {
    var y := t - pad + (unit - 1);
    var q := y / unit;
    Quotients(y, unit);
    if q < 1 { MulMono(q, 0, unit); }
    assert (q - 1) * unit == q * unit - unit;
    DivMod(q - 1, unit, 0);
    assert (q - 1) * unit >= 0 by { MulMono(0, q - 1, unit); }
    SixteenOf((q - 1) * unit, unit);
  }

  lemma ShrunkApart(m: Mem, h: Shape, segs: seq<Segment>, maps: Mappings, size: nat)
    requires SegsOk(h, segs) && MapsOk(m, maps, segs) && segs != [] && size <= segs[0].size
    ensures OthersApart(segs, 0, maps, segs[0].base, size)
  {
    forall j | 1 <= j < |segs| ensures BlocksApart(segs[0].base, size, segs[j].base, segs[j].size) {
      assert BlocksApart(segs[0].base, segs[0].size, segs[j].base, segs[j].size);
    }
    forall c | c in maps ensures BlocksApart(segs[0].base, size, maps[c].base, maps[c].size) {
      assert BlocksApart(maps[c].base, maps[c].size, segs[0].base, segs[0].size);
    }
  }

  lemma ShrunkHas(m: Mem, h: Shape, segs: seq<Segment>, maps: Mappings, granted: set<int>,
                  granted': set<int>, size: nat)
    requires SegsOk(h, segs) && MapsOk(m, maps, segs) && HasAll(granted, segs, maps) && segs != []
      && size <= segs[0].size
    requires forall a | a in granted && !(segs[0].base + size <= a < segs[0].End()) :: a in granted'
    ensures HasAll(granted', Resized(segs, 0, segs[0].base, size), maps)
  {
    var t := Resized(segs, 0, segs[0].base, size);
    forall j | 0 <= j < |t| ensures Has(granted', t[j].base, t[j].size) {
      assert Has(granted, segs[j].base, segs[j].size);
      if j > 0 { assert BlocksApart(segs[0].base, segs[0].size, segs[j].base, segs[j].size); }
    }
    forall c | c in maps ensures Has(granted', maps[c].base, maps[c].size) {
      assert Has(granted, maps[c].base, maps[c].size);
      assert BlocksApart(maps[c].base, maps[c].size, segs[0].base, segs[0].size);
    }
  }

  lemma UnitsLess(x: nat, y: nat, unit: nat)
    requires unit > 0 && Whole(x, unit) && Whole(y, unit) && y <= x
    ensures Whole(x - y, unit)
  {
    var q, r := x / unit, y / unit;
    assert x == q * unit by { assert x == unit * q; assert unit * q == q * unit; }
    assert y == r * unit by { assert y == unit * r; assert unit * r == r * unit; }
    assert (q - r) * unit == x - y;
    if q < r { AnotherUnit(q, r, unit); }
    DivMod(q - r, unit, 0);
  }

  /** sys_trim, with the end of the segment of top gone. */
  lemma TrimAll(m: Mem, b: BinState, h: Shape, k: Marks, leastAddr: int, segs: seq<Segment>, maps: Mappings,
                granted: set<int>, granted': set<int>, unit: nat, noncontiguous: bool, n: nat)
    requires unit > 0 && HeapOk(m, b, h, k, leastAddr, {})
      && Laid(m, h, leastAddr, segs, maps, granted, unit, noncontiguous)
    requires segs != [] && n % 16 == 0 && n + TOP_FOOT_SIZE < k.topsize && (segs[0].mmapped ==> Whole(n, unit))
    requires forall a | a in granted && !(segs[0].End() - n <= a < segs[0].End()) :: a in granted'
    ensures n < segs[0].size
    ensures var size := segs[0].size - n; var e := h.top + k.topsize - n;
      var h', segs', m' := MovedEnd(h, First(segs[0]), e), Resized(segs, 0, segs[0].base, size), InitTop(m, h.top, e);
      && h.top in h.C && HeapOk(m', b, h', k.(topsize := k.topsize - n), leastAddr, {})
      && Laid(m', h', leastAddr, segs', maps, granted', unit, noncontiguous)
      && Usable(h', maps) == Usable(h, maps) && Kept(m, Usable(h, maps), m', Usable(h', maps), {})
      && SegTotal(segs') == SegTotal(segs) - n
  {
    hide HeapOk, HasAll, MapOk, TagsOk, SegsOk, InitTop, MovedEnd, Usable, Kept, SegTotal, OthersApart,
      NewBlock, MapsOk;
    TopAligned(m, b, h, k, leastAddr, segs, maps, granted, unit, noncontiguous);
    SegOf(h, segs, 0);
    var size := segs[0].size - n;
    ShrunkApart(m, h, segs, maps, size);
    ShrunkHas(m, h, segs, maps, granted, granted', size);
    LessSixteens(segs[0].End(), n);
    if segs[0].mmapped { UnitsLess(segs[0].size, n, unit); }
    ResizeAll(m, b, h, k, leastAddr, segs, maps, granted, granted', unit, noncontiguous, size);
  }

  // ---------------------------------------------------------------------------------------
  // Pinned segments

  /** has_segment_link: a segment record lies in the segment. */
  predicate Pinned(segs: seq<Segment>, i: nat)
    requires i < |segs|
  {
    exists j :: 0 <= j < |segs| && SegHolds(segs[i], segs[j].at)
  }

  /** Every record lies in the segment it describes, so the segment of top is never pinned. */
  lemma TopNotPinned(m: Mem, h: Shape, segs: seq<Segment>)
    requires TagsOk(m, h) && SegsOk(h, segs) && segs != []
    ensures !Pinned(segs, 0) && forall j | 1 <= j < |segs| :: SegHolds(segs[j], segs[j].at)
  {
    hide TagsOk;
    forall j | 0 <= j < |segs| ensures !SegHolds(segs[0], segs[j].at) && (j > 0 ==> SegHolds(segs[j], segs[j].at)) {
      assert SegOk(h, segs[j]);
      if j > 0 {
        assert RecordOk(h, segs[j]);
        RegionFirst(m, h, First(segs[j]));
        AlignsUp(segs[j].base);
        RecordInside(m, h, segs, j);
        assert BlocksApart(segs[0].base, segs[0].size, segs[j].base, segs[j].size);
      }
    }
  }

  lemma NeverPinned(m: Mem, b: BinState, h: Shape, k: Marks, leastAddr: int, segs: seq<Segment>, maps: Mappings,
                    granted: set<int>, unit: nat, noncontiguous: bool)
    requires unit > 0 && HeapOk(m, b, h, k, leastAddr, {}) && segs != []
    requires Laid(m, h, leastAddr, segs, maps, granted, unit, noncontiguous)
    ensures !Pinned(segs, 0)
  {
    hide HeapOk, SegsOk, MapsOk, HasAll, Pinned;
    TagsIn(m, b, h, k, leastAddr, {});
    TopNotPinned(m, h, segs);
  }

  lemma RecordInside(m: Mem, h: Shape, segs: seq<Segment>, j: nat)
    requires TagsOk(m, h) && 1 <= j < |segs| && SegOk(h, segs[j]) && RecordOk(h, segs[j])
    ensures segs[j].base <= h.R[First(segs[j])] - 48 + 16 < segs[j].End()
  {
    hide ChunkOk, RegionOk;
    RegionFirst(m, h, First(segs[j]));
    AlignsUp(segs[j].base);
  }

  lemma UnmapKeeps(granted: set<int>, p: int, n: int)
    ensures forall a | a in granted && !(p <= a < p + n) :: a in granted - Bytes(p, n)
  {
    forall a | a in granted && !(p <= a < p + n) ensures a in granted - Bytes(p, n) {
      assert !Holds(p, n, a);
    }
  }

  lemma RemapKeeps(granted: set<int>, p: int, n: int, n': int)
    requires 0 <= n' <= n
    ensures forall a | a in granted && !(p + n' <= a < p + n) :: a in granted - Bytes(p, n) + Bytes(p, n')
  {
    forall a | a in granted && !(p + n' <= a < p + n) ensures a in granted - Bytes(p, n) + Bytes(p, n') {
      if p <= a < p + n' { assert Holds(p, n', a); } else { assert !Holds(p, n, a); }
    }
  }

  lemma TrimIsSmall(m: Mem, h: Shape, leastAddr: int, segs: seq<Segment>, maps: Mappings, granted: set<int>, unit: nat,
                    noncontiguous: bool)
    requires unit > 0 && Laid(m, h, leastAddr, segs, maps, granted, unit, noncontiguous) && segs != []
    ensures segs[0].size < LIMIT < HALF_MAX_SIZE_T
  {
    assert SegOk(h, segs[0]);
  }

  lemma NothingGone(granted: set<int>, granted': set<int>, e: int)
    requires forall a | a in granted && !(e <= a < e) :: a in granted'
    ensures granted <= granted'
  {
    forall a | a in granted ensures a in granted' {
      assert !(e <= a < e);
    }
  }

  lemma HasSegments(m: Mem, b: BinState, h: Shape, k: Marks, leastAddr: int, segs: seq<Segment>, maps: Mappings,
                    granted: set<int>, unit: nat, noncontiguous: bool)
    requires unit > 0 && HeapOk(m, b, h, k, leastAddr, {})
      && Laid(m, h, leastAddr, segs, maps, granted, unit, noncontiguous)
    ensures k.top != 0 <==> segs != []
  {
    hide HeapOk, SegsOk, MapsOk, HasAll;
    TopPlace(m, b, h, k, leastAddr, segs);
  }
}
