/** When the allocator gets no memory: what it must have asked the system for, and what the system answered (malloc.c,
    sys_alloc and mmap_alloc). */
module Refusals {
  import opened Words
  import opened ChunkMemory
  import opened Chunks
  import opened System
  import opened Segments
  import opened Spaces
  import opened MappedChunks
  import opened Freeing
  import opened HeapModel
  import opened Requests
  import opened Alignments

  /** What the ways to get memory depend on; end is where the segment of top ends. */
  datatype Standing = Standing(useMmap: bool, noncontiguous: bool, topsize: int, end: int, footprint: int, limit: int,
                               params: MParams)

  /** n more bytes are within the limit. */
  predicate MayTake(s: Standing, n: int) {
    s.limit == 0 || s.footprint + n <= s.limit
  }

  /** mmap_alloc is not for the request, the size of its mapping wraps around or is beyond the limit, or MMAP failed. */
  predicate NoMapping(s: Standing, nb: nat, calls: seq<SysCall>) {
    var n := RoundTo(nb + 63, s.params.page);
    if s.useMmap && nb >= s.params.mmapThreshold && s.topsize != 0
       && nb + 63 + s.params.page <= WORD && MayTake(s, n) then
      calls == [MmapCall(n, FAIL)]
    else
      calls == []
  }

  /** The request has its own mapping. */
  predicate OwnMapping(s: Standing, nb: nat, calls: seq<SysCall>, p: int) {
    var n := RoundTo(nb + 63, s.params.page);
    && s.useMmap && nb >= s.params.mmapThreshold && s.topsize != 0 && MayTake(s, n)
    && p != FAIL && calls == [MmapCall(n, p)]
  }

  /** The calls begin with a vain try of a mapping for the request, if there is to be one. */
  ghost predicate NotMappedFirst(s: Standing, nb: nat, calls: seq<SysCall>) {
    exists i {:trigger calls[..i]} :: 0 <= i <= |calls| && NoMapping(s, nb, calls[..i])
  }

  lemma IsNotMapped(s: Standing, nb: nat, made: seq<SysCall>)
    requires if s.useMmap && nb >= s.params.mmapThreshold && s.topsize != 0 && nb + 63 + s.params.page <= WORD
                && MayTake(s, RoundTo(nb + 63, s.params.page)) then
               made == [MmapCall(RoundTo(nb + 63, s.params.page), FAIL)]
             else
               made == []
    ensures NoMapping(s, nb, made)
  {
    hide RoundTo, MayTake;
  }

  lemma HasOwnMapping(s: Standing, nb: nat, made: seq<SysCall>, p: int)
    requires s.useMmap && nb >= s.params.mmapThreshold && s.topsize != 0 && MayTake(s, RoundTo(nb + 63, s.params.page))
    requires p != FAIL && made == [MmapCall(RoundTo(nb + 63, s.params.page), p)]
    ensures OwnMapping(s, nb, made, p)
  {
    hide RoundTo, MayTake;
  }

  lemma BeginsUnmapped(s: Standing, nb: nat, first: seq<SysCall>, calls: seq<SysCall>)
    requires NoMapping(s, nb, first) && first <= calls
    ensures NotMappedFirst(s, nb, calls)
  {
    hide NoMapping;
    assert calls[..|first|] == first;
  }

  /** MORECORE for a first segment that ends with a page. */
  predicate NoFirst(s: Standing, nb: nat, calls: seq<SysCall>) {
    && calls != [] && calls[0].SbrkCall? && calls[0].n == 0
    && var base := calls[0].result;
       var n := if base >= 0 then FirstSize(base, s.params.page, RoundTo(nb + SYS_ALLOC_PADDING, s.params.granularity))
         else 0;
       if base >= 0 && n > nb && n < HALF_MAX_SIZE_T && MayTake(s, n) then
         calls == [SbrkCall(0, base), SbrkCall(n, FAIL)]
       else
         |calls| == 1
  }

  /** What is missing, as MORECORE is asked for it. */
  function Missing(x: int, unit: nat): nat
    requires unit > 0
  {
    if x < 0 then 0 else RoundTo(x, unit)
  }

  /** MORECORE for n bytes, and if that comes from elsewhere and is less than x, for the rest e. */
  predicate Falls(end: int, x: int, n: int, e: int, calls: seq<SysCall>) {
    if n >= HALF_MAX_SIZE_T then
      calls == []
    else
      || calls == [SbrkCall(n, FAIL)]
      || (n < x && |calls| == 3 && calls[0].SbrkCall? && calls[0].n == n && calls[0].result != end
          && calls[1] == SbrkCall(e, FAIL) && calls[2].SbrkCall? && calls[2].n == -n)
  }

  /** MORECORE for what top lacks. */
  predicate NoMore(s: Standing, nb: nat, calls: seq<SysCall>) {
    var x, unit := nb + SYS_ALLOC_PADDING, s.params.granularity;
    var n := Missing(x - s.topsize, unit);
    Falls(s.end, x, n, Missing(x - n, unit), calls)
  }

  lemma PartRefused(s: Standing, nb: nat, n: nat, br: int, made: seq<SysCall>, more: seq<SysCall>)
    requires 0 < s.topsize && !s.noncontiguous && n == Missing(nb + SYS_ALLOC_PADDING - s.topsize, s.params.granularity)
    requires n < HALF_MAX_SIZE_T && made == [SbrkCall(n, br)] && br != s.end && n < nb + SYS_ALLOC_PADDING
    requires |more| == 2 && more[1].SbrkCall? && more[1].n == -(n as int)
      && more[0] == SbrkCall(Missing(nb + SYS_ALLOC_PADDING - n, s.params.granularity), FAIL)
    ensures NoExtension(s, nb, made + more)
  {
    hide Missing;
  }

  /** The first way failed, unless it was given up before. */
  predicate NoExtension(s: Standing, nb: nat, calls: seq<SysCall>)
  {
    if s.noncontiguous then calls == []
    else if s.topsize == 0 then NoFirst(s, nb, calls)
    else NoMore(s, nb, calls)
  }

  /** MMAP and then, for sizes that it may have, MORECORE failed. */
  predicate NoneElsewhere(n: nat, calls: seq<SysCall>) {
    if n < HALF_MAX_SIZE_T then
      && |calls| == 3 && calls[0] == MmapCall(n, FAIL) && calls[1] == SbrkCall(n, FAIL)
      && calls[2].SbrkCall? && calls[2].n == 0
    else
      calls == [MmapCall(n, FAIL)]
  }

  lemma ElsewhereRefused(n: nat, more: seq<SysCall>)
    requires if n < HALF_MAX_SIZE_T
             then |more| == 2 && more[0] == SbrkCall(n, FAIL) && more[1].SbrkCall? && more[1].n == 0 else more == []
    ensures NoneElsewhere(n, [MmapCall(n, FAIL)] + more)
  {
  }

  /** Neither way led to memory: the size wraps around or is beyond the limit, or all of them failed. */
  ghost predicate NoSegment(s: Standing, nb: nat, calls: seq<SysCall>)
  {
    var n := RoundTo(nb + SYS_ALLOC_PADDING, s.params.granularity);
    if nb + SYS_ALLOC_PADDING + s.params.granularity > WORD || !MayTake(s, n) then
      calls == []
    else
      exists i {:trigger calls[..i]} ::
        0 <= i <= |calls| && NoExtension(s, nb, calls[..i]) && NoneElsewhere(n, calls[i..])
  }

  /** All that sys_alloc can try was tried, in this order, and in vain. */
  ghost predicate Refuses(s: Standing, nb: nat, calls: seq<SysCall>)
  {
    exists i {:trigger calls[..i]} :: 0 <= i <= |calls| && NoMapping(s, nb, calls[..i]) && NoSegment(s, nb, calls[i..])
  }

  /** The calls made since. */
  lemma Since(before: seq<SysCall>, made: seq<SysCall>)
    ensures before <= before + made && (before + made)[|before|..] == made
  {
  }

  lemma Joined(before: seq<SysCall>, made: seq<SysCall>, more: seq<SysCall>)
    ensures before + made + more == before + (made + more) && made + [] == made
  {
  }

  lemma CallsJoin(before: seq<SysCall>, made: seq<SysCall>, after: seq<SysCall>)
    requires before + made <= after
    ensures before <= after && after[|before|..] == made + after[|before + made|..]
  {
  }

  lemma NotExtended(s: Standing, nb: nat)
    requires s.noncontiguous
    ensures NoExtension(s, nb, [])
  {
  }

  lemma SegmentRefused(s: Standing, nb: nat, first: seq<SysCall>, rest: seq<SysCall>)
    requires NoExtension(s, nb, first)
    requires NoneElsewhere(RoundTo(nb + SYS_ALLOC_PADDING, s.params.granularity), rest)
    requires nb + SYS_ALLOC_PADDING + s.params.granularity <= WORD
      && MayTake(s, RoundTo(nb + SYS_ALLOC_PADDING, s.params.granularity))
    ensures NoSegment(s, nb, first + rest)
  {
    hide NoExtension, NoneElsewhere, RoundTo;
    var calls := first + rest;
    assert calls[..|first|] == first && calls[|first|..] == rest;
  }

  lemma AllRefused(s: Standing, nb: nat, first: seq<SysCall>, rest: seq<SysCall>)
    requires NoMapping(s, nb, first) && NoSegment(s, nb, rest)
    ensures Refuses(s, nb, first + rest)
  {
    hide NoMapping, NoSegment;
    var calls := first + rest;
    assert calls[..|first|] == first && calls[|first|..] == rest;
  }

  lemma NothingAsked(s: Standing, nb: nat)
    requires nb + SYS_ALLOC_PADDING + s.params.granularity > WORD
      || !MayTake(s, RoundTo(nb + SYS_ALLOC_PADDING, s.params.granularity))
    ensures NoSegment(s, nb, [])
  {
    hide RoundTo, MayTake;
  }

  /** mmap_resize of the chunk c to nb bytes with overhead, in the mapping x: never to a small size, and not at all if
      it is large enough but not too large; otherwise MREMAP decides. */
  predicate MapTried(x: Mapping, c: int, nb: nat, params: MParams, mayMove: bool, newp: int, calls: seq<SysCall>) {
    if nb < 256 then newp == 0 && calls == []
    else if KeepsMap(x.ChunkBytes(c), nb, params.granularity) then newp == c && calls == []
    else
      && |calls| == 1 && calls[0].MremapCall?
      && var r := calls[0].result;
         && calls[0] == MremapCall(x.base, x.size, MapSize(nb, params.page), mayMove, r)
         && newp == if r == FAIL then 0 else r + (c - x.base)
  }

  /** The mapped chunk p was remapped to one that is misplaced. */
  ghost predicate MapMisplaced(m0: Mem, g0: set<int>, maps: Mappings, m: Mem, g: set<int>, p: int, q: int, nb: nat,
                               params: MParams) {
    p in maps && Misplaced(m0, g0, p, maps[p], m, g, q, nb, params.page)
  }

  /** try_realloc_chunk of p to nb bytes: whether that is possible, and the calls it takes. */
  ghost predicate Tries(h: Shape, maps: Mappings, params: MParams, p: int, nb: nat, mayMove: bool, newp: int,
                        calls: seq<SysCall>) {
    if p in maps then MapTried(maps[p], p, nb, params, mayMove, newp, calls)
    else calls == [] && Owned(h, p) && newp == if CanGrow(h, p, nb) then p else 0
  }

  /** A chunk of the heap is resized where it is as the model says. */
  ghost predicate ResizesChunk(w: Model, maps: Mappings, p: int, nb: nat, w': Model, ok: bool) {
    p !in maps ==> Owned(w.h, p) && Resizes(w, p, nb, w', ok)
  }

  /** The chunk p could not be resized where it is, and a new chunk of nb bytes was refused. */
  ghost predicate RefusesResize(h: Shape, maps: Mappings, s: Standing, p: int, nb: nat, calls: seq<SysCall>) {
    && NoneFits(h, nb)
    && exists i {:trigger calls[..i]} ::
         0 <= i <= |calls| && Tries(h, maps, s.params, p, nb, true, 0, calls[..i]) && Refuses(s, nb, calls[i..])
  }

  lemma ResizeRefused(h: Shape, maps: Mappings, s: Standing, p: int, nb: nat, first: seq<SysCall>, rest: seq<SysCall>)
    requires NoneFits(h, nb) && Refuses(s, nb, rest) && Tries(h, maps, s.params, p, nb, true, 0, first)
    ensures RefusesResize(h, maps, s, p, nb, first + rest)
  {
    hide Tries, Refuses, NoneFits;
    var calls := first + rest;
    assert calls[..|first|] == first && calls[|first|..] == rest;
  }

  /** No room for the request with the alignment: it is too large, or a chunk in which it can be aligned was refused. */
  ghost predicate RefusesAligned(h: Shape, s: Standing, alignment: nat, bytes: nat, calls: seq<SysCall>) {
    if bytes >= MAX_REQUEST - alignment then calls == []
    else RefusesRequest(h, s, SizeFor(bytes) + alignment + 24, calls)
  }

  /** malloc is refused: no free chunk has room, and the system gives nothing. */
  ghost predicate RefusesRequest(h: Shape, s: Standing, bytes: nat, calls: seq<SysCall>) {
    NoneFits(h, SizeFor(bytes)) && Refuses(s, SizeFor(bytes), calls)
  }

  /** memalign is refused, for the least power of two that is large enough. */
  ghost predicate RefusesMemalign(h: Shape, s: Standing, alignment: nat, bytes: nat, calls: seq<SysCall>) {
    if alignment <= 16 then
      RefusesRequest(h, s, bytes, calls)
    else
      exists a: nat :: PowerOfTwo(a) && a >= 32 && alignment <= a && (a == 32 || a < 2 * alignment)
                       && RefusesAligned(h, s, a, bytes, calls)
  }

  lemma NoneRefused(h: Shape, s: Standing, alignment: nat, bytes: nat)
    requires bytes >= MAX_REQUEST - alignment
    ensures RefusesAligned(h, s, alignment, bytes, [])
  {
  }

  lemma AlignedRefused(h: Shape, s: Standing, alignment: nat, bytes: nat, calls: seq<SysCall>)
    requires bytes < MAX_REQUEST - alignment && bytes < MAX_REQUEST
      && RefusesRequest(h, s, Request2Size(bytes) + alignment + MIN_CHUNK_SIZE - CHUNK_OVERHEAD, calls)
    ensures RefusesAligned(h, s, alignment, bytes, calls)
  {
    hide RefusesRequest, Request2Size;
  }

  /** The comparison of the code with the limit. */
  lemma TakesIf(s: Standing, n: nat)
    requires 0 < n < WORD && 0 <= s.footprint && 0 <= s.limit < WORD
    ensures var fp := Wrap(s.footprint + n);
      MayTake(s, n) <==> s.limit == 0 || (fp > s.footprint && fp <= s.limit)
  {
    hide Wrap;
    WithinLimit(s.footprint, n, s.limit);
    if s.footprint + n < WORD { WrapNear(s.footprint + n); }
  }
}
