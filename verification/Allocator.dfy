/** The allocator with its segments, mapped chunks and calls of the system (malloc.c, "Direct-mmapping
    chunks", "System allocation", "system deallocation" and the dl entry points). */
module Allocator {
  import opened Words
  import opened ChunkMemory
  import opened AllBins
  import opened Chunks
  import opened HeapState
  import opened HeapInvariant
  import opened HeapBins
  import opened Recuts
  import opened TagWrites
  import opened Tiling
  import opened Freeing
  import opened Carving
  import opened Requests
  import opened Regions
  import opened Segments
  import opened System
  import opened Payloads
  import opened SpaceSteps
  import opened Spaces
  import opened Installing
  import opened Prepending
  import opened MappedChunks
  import opened Refusals
  import opened Releasing
  import opened BulkFreeing
  import opened Ownership
  import opened Alignments
  import opened HeapFacts
  import Heap
  import HeapModel
  import Resizing
  import ReuseOrder

  class Allocator {
    const heap: Heap.Heap
    const os: Os
    const params: MParams
    var segs: seq<Segment>
    var footprint: int
    var maxFootprint: int
    var footprintLimit: int
    var useMmap: bool
    var noncontiguous: bool
    var trimCheck: nat
    var releaseChecks: int
    ghost var maps: Mappings
    // Mapped chunks that were freed, but the system did not take them back.
    ghost var lost: set<int>

    /** Heap and space are in order. */
    ghost predicate Sound()
      reads this, heap, heap.arena, heap.small, heap.tree, os
    {
      && heap.Valid()
      && Laid(heap.arena.mem, heap.h, heap.arena.leastAddr, segs, maps, os.granted, params.granularity, noncontiguous)
    }

    ghost predicate Valid()
      reads this, heap, heap.arena, heap.small, heap.tree, os
    {
      Sound() && footprint == SegTotal(segs) + MapTotal(maps) && footprint <= maxFootprint
        && LostOk(lost, maps) && os.Ok() && 0 <= footprintLimit < WORD
    }

    /** What a request for memory from the system depends on. */
    ghost function Now(): Standing
      reads this, heap
    {
      Standing(useMmap, noncontiguous, heap.topsize, if segs == [] then 0 else segs[0].End(), footprint, footprintLimit,
               params)
    }

    /** All chunks in use, and how much each of them may hold. */
    ghost function Held(): map<int, int>
      reads this, heap
    {
      Usable(heap.h, maps)
    }

    /** The chunks of the program. */
    ghost function Owner(): map<int, int>
      reads this, heap
    {
      Held() - lost
    }

    /** malloc_state before its first use. */
    constructor (os: Os, params: MParams)
      requires os.Ok()
      ensures Valid() && this.os == os && this.params == params && fresh(heap) && fresh(heap.arena)
        && fresh(heap.small) && fresh(heap.tree)
      ensures Owner() == map[] && footprint == 0 && footprintLimit == 0
    {
      hide ReuseOrder.Recorded, Whole, HeapOk, SpaceOk, Usable, SegTotal, MapTotal;
      this.heap := new Heap.Heap();
      this.os, this.params := os, params;
      segs, footprint, maxFootprint, footprintLimit := [], 0, 0, 0;
      useMmap, noncontiguous, trimCheck, releaseChecks := true, false, 0, 0;
      maps, lost := map[], {};
      new;
      NoSpace(heap.arena.mem, heap.h, os.granted);
    }

    // -------------------------------------------------------------------------------------
    // sys_alloc: ways to get memory

    /** CALL_MORECORE for the first segment; others may move the break in between.  If they do not, the
        segment ends with a page. */
    method ExtendFirst(nb: nat, asize: nat) returns (br: int, ssize: nat, tbase: int, ghost made: seq<SysCall>)
      requires asize == RoundTo(nb + SYS_ALLOC_PADDING, params.granularity) && 0 <= footprintLimit < WORD
      requires nb + SYS_ALLOC_PADDING <= asize < nb + SYS_ALLOC_PADDING + params.granularity && asize < WORD
        && asize % 16 == 0
      requires footprint >= 0 && os.Ok()
      modifies os
      ensures os.Ok() && (br == FAIL ==> os.granted == old(os.granted) && tbase == FAIL)
      ensures br != FAIL ==>
        && New(old(os.granted), br, ssize) && os.granted == old(os.granted) + Bytes(br, ssize)
        && (tbase == FAIL || tbase == br) && asize <= ssize
        && (footprintLimit == 0 || footprint + ssize <= footprintLimit)
        && (tbase != FAIL || os.tidy ==> (br + ssize) % 8 == 0) && (os.tidy ==> ssize % 8 == 0)
      ensures os.calls == old(os.calls) + made && (br == FAIL ==> NoFirst(Now(), nb, made))
    {
      hide ReuseOrder.Recorded, Wrap, RoundTo, New, Bytes, FirstSize, MayTake;
      br, ssize, tbase := FAIL, asize, FAIL;
      var base := os.Morecore(0);
      made := [SbrkCall(0, base)];
      if base != FAIL {
        ssize := FirstSize(base, params.page, asize);
        FirstEnd(base, params.page, nb, asize);
        var fp := Wrap(footprint + ssize);
        WithinLimit(footprint, ssize, footprintLimit);
        if ssize > 0 { TakesIf(Now(), ssize); }
        if ssize > nb && ssize < HALF_MAX_SIZE_T && (footprintLimit == 0 || (fp > footprint && fp <= footprintLimit)) {
          os.Others();
          ghost var g0 := os.granted;
          br := os.Morecore(ssize);
          made := made + [SbrkCall(ssize, br)];
          if br == base { tbase := base; }
        }
      }
    }

    /** CALL_MORECORE for what top lacks. */
    method ExtendTop(nb: nat) returns (br: int, ssize: nat, tbase: int, ghost made: seq<SysCall>)
      requires segs != [] && 0 <= heap.topsize <= nb && nb + SYS_ALLOC_PADDING + params.granularity <= WORD && os.Ok()
      modifies os
      ensures ssize == RoundTo(nb - heap.topsize + SYS_ALLOC_PADDING, params.granularity)
        && ssize == Missing(nb + SYS_ALLOC_PADDING - heap.topsize, params.granularity)
      ensures os.Ok() && ssize % 16 == 0 && (br == FAIL ==> os.granted == old(os.granted) && tbase == FAIL)
      ensures br != FAIL ==>
        && New(old(os.granted), br, ssize) && os.granted == old(os.granted) + Bytes(br, ssize)
        && os.brk == br + ssize && (if br == segs[0].End() then tbase == br else tbase == FAIL)
        && (os.tidy ==> (br + ssize) % 8 == 0) && (os.tidy ==> ssize % 8 == 0) && ssize < HALF_MAX_SIZE_T
      ensures os.calls == old(os.calls) + made
        && made == if ssize < HALF_MAX_SIZE_T then [SbrkCall(ssize, br)] else []
    {
      hide ReuseOrder.Recorded, RoundTo, New, Bytes;
      br, tbase, made := FAIL, FAIL, [];
      ssize := RoundTo(Wrap(Wrap(nb - heap.topsize) + SYS_ALLOC_PADDING), params.granularity);
      RoundedSixteen(nb - heap.topsize + SYS_ALLOC_PADDING, params.granularity);
      if ssize < HALF_MAX_SIZE_T {
        br := os.Morecore(ssize);
        made := [SbrkCall(ssize, br)];
        if br != FAIL && os.tidy { AddedEights(0, br, ssize); }
        if br == segs[0].End() { tbase := br; }
      }
    }

    /** When MORECORE gave something, but not what was wanted: use or extend the space that it did give, or
        give it back. */
    method CopeWithPart(nb: nat, br0: int, ssize0: nat, ghost g0: set<int>)
      returns (br: int, ssize: nat, ghost made: seq<SysCall>)
      requires nb + SYS_ALLOC_PADDING < WORD && os.Ok()
      requires br0 != FAIL ==>
        && New(g0, br0, ssize0) && os.granted == g0 + Bytes(br0, ssize0) && ssize0 > 0 && (os.tidy ==> ssize0 % 8 == 0)
        && (nb + SYS_ALLOC_PADDING <= ssize0 || os.brk == br0 + ssize0)
      requires br0 == FAIL ==> os.granted == g0
      requires br0 != FAIL && ssize0 < nb + SYS_ALLOC_PADDING ==>
        0 < RoundTo(nb + SYS_ALLOC_PADDING - ssize0, params.granularity) < HALF_MAX_SIZE_T
      modifies os
      ensures g0 <= os.granted && os.Ok()
      ensures br != FAIL ==>
        && br == br0 && Got(g0, os.granted, br, ssize) && ssize0 < HALF_MAX_SIZE_T
        && ssize == if ssize0 < nb + SYS_ALLOC_PADDING
                    then ssize0 + RoundTo(nb + SYS_ALLOC_PADDING - ssize0, params.granularity) else ssize0
      ensures os.calls == old(os.calls) + made && (br0 == FAIL ==> made == [] && br == FAIL)
      ensures br0 != FAIL && br == FAIL ==>
        && ssize0 < nb + SYS_ALLOC_PADDING && |made| == 2 && made[1].SbrkCall? && made[1].n == -(ssize0 as int)
        && made[0] == SbrkCall(Missing(nb + SYS_ALLOC_PADDING - ssize0, params.granularity), FAIL)
    {
      hide ReuseOrder.Recorded, RoundTo, Bytes;
      br, ssize, made := br0, ssize0, [];
      if br != FAIL {
        if ssize < HALF_MAX_SIZE_T && ssize < Wrap(nb + SYS_ALLOC_PADDING) {
          var esize := RoundTo(Wrap(nb + SYS_ALLOC_PADDING - ssize), params.granularity);
          RoundedSixteen(nb + SYS_ALLOC_PADDING - ssize, params.granularity);
          if os.tidy {
            AddedEights(0, os.brk, esize);
          }
          if esize < HALF_MAX_SIZE_T {
            var end := os.Morecore(esize);
            made := [SbrkCall(esize, end)];
            if end != FAIL {
              GotTwice(g0, br, ssize, esize);
              ssize := ssize + esize;
            } else {
              var all: int := ssize;
              var gone := os.Morecore(-all);
              made := made + [SbrkCall(-all, gone)];
              GotAndGone(g0, br, ssize);
              br := FAIL;
            }
          }
        } else {
          GotAtOnce(g0, br, ssize);
        }
      }
    }

    /** MORECORE for what is missing: what it gives, and whether that is what was wanted. */
    method Extend(nb: nat, asize: nat) returns (br: int, ssize: nat, tbase: int, ghost made: seq<SysCall>)
      requires Valid() && !noncontiguous && heap.topsize <= nb && Asked(nb, params.granularity, asize)
      requires footprintLimit == 0 || footprint + asize <= footprintLimit
      modifies os
      ensures os.Ok() && (br == FAIL ==> os.granted == old(os.granted) && tbase == FAIL)
      ensures br != FAIL ==>
        && New(old(os.granted), br, ssize) && os.granted == old(os.granted) + Bytes(br, ssize) && ssize > 0
        && (tbase == FAIL || tbase == br) && (os.tidy ==> ssize % 8 == 0)
        && (footprintLimit == 0 || footprint + ssize <= footprintLimit)
        && (nb + SYS_ALLOC_PADDING <= ssize || os.brk == br + ssize)
        && (segs != [] ==> ssize % 16 == 0) && (os.tidy ==> (br + ssize) % 8 == 0)
        && (ssize < nb + SYS_ALLOC_PADDING ==>
              var esize := RoundTo(nb + SYS_ALLOC_PADDING - ssize, params.granularity);
              ssize + esize == asize && 0 < esize < HALF_MAX_SIZE_T && esize % 16 == 0)
      ensures tbase != FAIL ==> Enough(segs, heap.topsize, nb, tbase, ssize)
      ensures nb + SYS_ALLOC_PADDING <= asize && nb + SYS_ALLOC_PADDING < WORD && asize % 16 == 0
      ensures os.calls == old(os.calls) + made && 0 <= heap.topsize <= nb
      ensures br == FAIL ==> NoExtension(Now(), nb, made)
      ensures br != FAIL && tbase == FAIL ==>
        || nb + SYS_ALLOC_PADDING <= ssize
        || (heap.topsize > 0 && ssize == Missing(nb + SYS_ALLOC_PADDING - heap.topsize, params.granularity)
            && ssize < HALF_MAX_SIZE_T && made == [SbrkCall(ssize, br)] && br != Now().end)
    {
      hide ReuseOrder.Recorded, Whole, HeapOk, LostOk, SpaceOk, Kinds, MapsAbove, RoundTo, New, Bytes,
        SegTotal, MapTotal, Laid, TagsOk, NoFirst;
      BeforeContiguous(heap.arena.mem, heap.Bins(), heap.h, heap.Fields(), heap.arena.leastAddr, segs, maps, os.granted,
                       params.granularity, nb, asize);
      if heap.top == 0 {
        br, ssize, tbase, made := ExtendFirst(nb, asize);
      } else {
        br, ssize, tbase, made := ExtendTop(nb);
      }
    }

    /** The first way: MORECORE, if it can contiguously extend the segment of top. */
    method Contiguous(nb: nat, asize: nat) returns (tbase: int, tsize: int, ghost made: seq<SysCall>)
      requires Valid() && !noncontiguous && heap.topsize <= nb && Asked(nb, params.granularity, asize)
      requires footprintLimit == 0 || footprint + asize <= footprintLimit
      modifies this`noncontiguous, os
      ensures Valid()
      ensures tbase == FAIL ==> noncontiguous
      ensures tbase != FAIL ==>
        && Obtained(old(os.granted), os.granted, segs, heap.topsize, nb, tbase, tsize)
        && (footprintLimit == 0 || footprint + tsize <= footprintLimit)
        && (os.tidy ==> (tbase + tsize) % 8 == 0)
      ensures os.calls == old(os.calls) + made && 0 <= heap.topsize <= nb
      ensures tbase == FAIL ==> NoExtension(old(Now()), nb, made)
    {
      hide ReuseOrder.Recorded, Whole, HeapOk, LostOk, SpaceOk, Kinds, MapsAbove, RoundTo, New, Bytes,
        SegTotal, MapTotal, Laid, Asked, TagsOk, Got, NoExtension;
      ghost var g0, s, c0 := os.granted, Now(), os.calls;
      var br, ssize;
      br, ssize, tbase, made := Extend(nb, asize);
      tsize := ssize;
      if tbase == FAIL {
        ghost var more, br0, ssize0 := [], br, ssize;
        br, ssize, more := CopeWithPart(nb, br, ssize, g0);
        if br0 != FAIL && br == FAIL { PartRefused(s, nb, ssize0, br0, made, more); }
        Joined(c0, made, more);
        made := made + more;
        if br != FAIL {
          tbase, tsize := br, ssize;
        } else {
          noncontiguous := true;
        }
      } else {
        GotAtOnce(g0, br, ssize);
      }
      StillLaid(heap.arena.mem, heap.h, heap.arena.leastAddr, segs, maps, g0, os.granted, params.granularity,
                false, noncontiguous);
    }

    // -------------------------------------------------------------------------------------
    // sys_alloc: where new memory goes

    /** segment_holding */
    method SegmentHolding(a: int) returns (i: nat)
      ensures i <= |segs| && (i < |segs| ==> SegHolds(segs[i], a))
      ensures forall j | 0 <= j < i :: !SegHolds(segs[j], a)
    {
      i := 0;
      while i < |segs| && !SegHolds(segs[i], a)
        invariant i <= |segs| && forall j | 0 <= j < i :: !SegHolds(segs[j], a)
      {
        i := i + 1;
      }
    }

    /** init_top */
    method InitTopChunk(p0: int, psize0: int)
      modifies this`trimCheck, heap`top, heap`topsize, heap.arena`mem
      ensures heap.top == AlignAsChunk(p0) && heap.top + heap.topsize == p0 + psize0
        && trimCheck == params.trimThreshold
      ensures heap.arena.mem == old(heap.arena.mem)[heap.top + 8 := WithPinuse(heap.topsize)][heap.top + heap.topsize
        + 8 := TOP_FOOT_SIZE]
      ensures heap.topsize % 8 == 0 ==>
        heap.arena.mem == InitTop(old(heap.arena.mem), heap.top, heap.top + heap.topsize)
    {
      var offset := AlignOffset(p0 + 16);
      var p, psize := p0 + offset, psize0 - offset;
      heap.top := p;
      heap.topsize := psize;
      heap.arena.mem := heap.arena.mem[p + 8 := WithPinuse(psize)];
      heap.arena.mem := heap.arena.mem[p + psize + 8 := TOP_FOOT_SIZE];
      if psize % 8 == 0 { TopHead(psize); }
      trimCheck := params.trimThreshold;
    }

    /** Top begins at an aligned address and ends with the space for its segment. */
    predicate TopEnds()
      requires segs != []
      reads this, heap
    {
      heap.top % 16 == 0 && heap.top >= HEAP_MIN && heap.top + heap.topsize + TOP_FOOT_SIZE == segs[0].End()
    }

    /** The first segment of the heap. */
    method FirstSegment(tbase: int, tsize: nat, mmapped: bool)
      requires Sound() && segs == [] && tsize >= SYS_ALLOC_PADDING + 16
      requires NewBlock(segs, maps, tbase, tsize) && Has(os.granted, tbase, tsize)
      requires mmapped ==> noncontiguous && Whole(tsize, params.granularity)
      modifies this`segs, this`trimCheck, this`releaseChecks, heap`top, heap`topsize, heap`h, heap.arena
      ensures heap.topsize + SYS_ALLOC_PADDING > tsize && heap.topsize % 8 == (tbase + tsize) % 8
        && segs != [] && TopEnds()
      ensures heap.topsize % 8 == 0 ==>
        && Sound() && SegTotal(segs) == old(SegTotal(segs)) + tsize
        && Held() == old(Held()) && Kept(old(heap.arena.mem), old(Held()), heap.arena.mem, Held(), {})
    {
      hide ReuseOrder.Recorded, Whole, HeapOk, LostOk, Laid, NewBlock, Has, Usable, Kept, SegTotal, WithRegion,
        InitTop, AlignAsChunk, WithPinuse, SpaceOk, Kinds, MapsAbove;
      ghost var m, b, h, k, least := heap.arena.mem, heap.Bins(), heap.h, heap.Fields(), heap.arena.leastAddr;
      ghost var s := Segment(tbase, tsize, mmapped, 0);
      if heap.arena.leastAddr == 0 || tbase < heap.arena.leastAddr {
        heap.arena.leastAddr := tbase;
      }
      SegTotalPush(segs, s);
      assert [s] + segs == [s];
      segs := [Segment(tbase, tsize, mmapped, 0)];
      releaseChecks := MAX_RELEASE_CHECK_RATE;
      InitTopChunk(tbase, tsize - TOP_FOOT_SIZE);
      AlignsUp(tbase);
      NewIsHigh([], maps, tbase, tsize);
      TopSizeOf(tbase, tsize);
      if heap.topsize % 8 == 0 {
        InitAll(m, b, h, k, least, [], maps, os.granted, params.granularity, noncontiguous, s, heap.arena.leastAddr);
        heap.h := WithRegion(h, First(s), s.End() - TOP_FOOT_SIZE);
      }
    }

    /** The segment of top gets longer. */
    method Append(tsize: nat)
      requires Sound() && segs != [] && NewBlock(segs, maps, segs[0].End(), tsize) && tsize % 16 == 0
      requires Has(os.granted, segs[0].End(), tsize) && (segs[0].mmapped ==> Whole(tsize, params.granularity))
      modifies this`segs, this`trimCheck, heap`top, heap`topsize, heap`h, heap.arena`mem
      ensures Sound() && SegTotal(segs) == old(SegTotal(segs)) + tsize && heap.topsize == old(heap.topsize) + tsize
        && segs != [] && TopEnds()
      ensures Held() == old(Held()) && Kept(old(heap.arena.mem), old(Held()), heap.arena.mem, Held(), {})
    {
      hide ReuseOrder.Recorded, Whole, HeapOk, LostOk, Laid, NewBlock, Has, Usable, Kept, SegTotal, MovedEnd,
        InitTop, AlignAsChunk, WithPinuse, First;
      ghost var m, b, h, k, least := heap.arena.mem, heap.Bins(), heap.h, heap.Fields(), heap.arena.leastAddr;
      TopAligned(m, b, h, k, least, segs, maps, os.granted, params.granularity, noncontiguous);
      AddedEights(k.topsize, 0, tsize);
      AppendAll(m, b, h, k, least, segs, maps, os.granted, params.granularity, noncontiguous, tsize);
      AlignsUp(h.top);
      heap.h := MovedEnd(h, First(segs[0]), h.top + k.topsize + tsize);
      segs := Resized(segs, 0, segs[0].base, segs[0].size + tsize);
      InitTopChunk(heap.top, heap.topsize + tsize);
    }

    /** The end markers behind a segment record. */
    method Fenceposts(tnext: int, oldEnd: int)
      requires tnext + 32 <= oldEnd
      modifies heap.arena`mem
      ensures Fenced(heap.arena.mem, tnext, oldEnd)
      ensures forall a {:trigger Rd(heap.arena.mem, a)} | !(tnext + 8 <= a < oldEnd) ::
        Rd(heap.arena.mem, a) == Rd(old(heap.arena.mem), a)
    {
      var p, nfences := tnext, 0;
      while true
        invariant nfences >= 0 && p + 8 == PostPlace(tnext, nfences) < oldEnd
        invariant forall k {:trigger PostPlace(tnext, k)} | 0 <= k < nfences ::
          Rd(heap.arena.mem, PostPlace(tnext, k)) == FENCEPOST_HEAD
        invariant forall a {:trigger Rd(heap.arena.mem, a)} | !(tnext + 8 <= a < oldEnd) ::
          Rd(heap.arena.mem, a) == Rd(old(heap.arena.mem), a)
        decreases oldEnd - p
      {
        var nextp := p + 8;
        OneWord(heap.arena.mem, p + 8, FENCEPOST_HEAD);
        heap.arena.mem := heap.arena.mem[p + 8 := FENCEPOST_HEAD];
        nfences := nfences + 1;
        if nextp + 8 < oldEnd {
          p := nextp;
        } else {
          break;
        }
      }
      assert nfences >= 2;
    }

    /** The record chunk and the fenceposts behind it; what is left of top becomes a free chunk. */
    method SealTop(oldTop: int, csp: int, ssize: int, oldEnd: int, ghost s: int) returns (psize: nat)
      requires oldTop % 16 == 0 && s % 8 == 0 && s >= 8 && oldEnd == oldTop + s + TOP_FOOT_SIZE && ssize == 48
      requires csp == if s < MIN_CHUNK_SIZE then oldTop else oldTop + CapSize(s)
      modifies heap.arena`mem
      ensures CapWrites(old(heap.arena.mem), heap.arena.mem, oldTop, s) && Fenced(heap.arena.mem, csp + 48, oldEnd)
      ensures psize == if s < MIN_CHUNK_SIZE then 0 else CapSize(s)
    {
      hide ReuseOrder.Recorded, SetSizeInuse, SetFreeWithPinuse, CapWrites, Fenced, CapSize;
      ghost var m0 := heap.arena.mem;
      heap.arena.mem := SetSizeInuse(heap.arena.mem, csp, ssize);
      ghost var m1 := heap.arena.mem;
      var tnext := csp + ssize;
      CapSizeIs(s);
      Fenceposts(tnext, oldEnd);
      ghost var m2 := heap.arena.mem;
      psize := 0;
      if csp != oldTop {
        psize := csp - oldTop;
        CapsLarge(m0, m1, m2, oldTop, s);
        heap.arena.mem := SetFreeWithPinuse(heap.arena.mem, oldTop, psize, csp);
        StillFenced(m2, heap.arena.mem, tnext, oldEnd) by { SealWords(m2, oldTop, psize, csp); }
      } else {
        CapsSmall(m0, m1, m2, oldTop, s);
      }
    }

    /** Where add_segment puts the record of the old top segment. */
    method RecordAtEnd() returns (oldTop: int, csp: int, oldEnd: int)
      requires Sound() && segs != []
      ensures oldTop == heap.top == heap.h.top && oldTop in heap.h.C && heap.h.C[oldTop] == heap.topsize
      ensures oldTop % 16 == 0 && heap.topsize % 8 == 0 && heap.topsize >= 8
        && oldEnd == oldTop + heap.topsize + TOP_FOOT_SIZE
      ensures csp == if heap.topsize < MIN_CHUNK_SIZE then oldTop else oldTop + CapSize(heap.topsize)
    {
      hide ReuseOrder.Recorded, Whole, HeapOk, LostOk, Laid, SegsOk, AlignOffset, PadRequest, CapSize;
      ghost var m, b, h, k, least := heap.arena.mem, heap.Bins(), heap.h, heap.Fields(), heap.arena.leastAddr;
      TopAligned(m, b, h, k, least, segs, maps, os.granted, params.granularity, noncontiguous);
      RecordSize();
      oldTop := heap.top;
      var i := SegmentHolding(oldTop);
      assert i == 0 by { assert SegHolds(segs[0], oldTop); }
      oldEnd := segs[i].End();
      var ssize := PadRequest(32);
      var rawsp := oldEnd - (ssize + 32 + 15);
      var offset := AlignOffset(rawsp + 16);
      RecordPlaces(oldEnd, oldTop, k.topsize);
      var asp := rawsp + offset;
      csp := if asp < oldTop + MIN_CHUNK_SIZE then oldTop else asp;
    }

    /** The writes of add_segment, up to the binning of the old top. */
    method WriteSegment(tbase: int, tsize: nat, mmapped: bool) returns (oldTop: int, psize: nat, ghost m1: Mem)
      requires Sound() && segs != []
      modifies this`segs, this`trimCheck, heap`top, heap`topsize, heap.arena`mem
      ensures oldTop == old(heap.top) == heap.h.top && oldTop in heap.h.C && heap.h.C[oldTop] == old(heap.topsize)
        && psize == if old(heap.topsize) < MIN_CHUNK_SIZE then 0 else CapSize(old(heap.topsize))
      ensures segs == WithSegment(heap.h, old(segs), Segment(tbase, tsize, mmapped, 0))
      ensures heap.top == AlignAsChunk(tbase) && heap.top + heap.topsize == tbase + tsize - TOP_FOOT_SIZE
      ensures m1 == old(heap.arena.mem)[heap.top + 8 := WithPinuse(heap.topsize)][heap.top + heap.topsize + 8
        := TOP_FOOT_SIZE]
      ensures heap.topsize % 8 == 0 ==> m1 == InitTop(old(heap.arena.mem), heap.top, heap.top + heap.topsize)
      ensures CapWrites(m1, heap.arena.mem, oldTop, old(heap.topsize))
        && Fenced(heap.arena.mem, RecordPlace(heap.h) + 48, old(segs)[0].End())
    {
      hide ReuseOrder.Recorded, Whole, HeapOk, Laid, CapWrites, InitTop, AlignOffset, AlignAsChunk, Fenced,
        WithPinuse;
      var csp, oldEnd;
      oldTop, csp, oldEnd := RecordAtEnd();
      ghost var s := heap.topsize;
      TopAligned(heap.arena.mem, heap.Bins(), heap.h, heap.Fields(), heap.arena.leastAddr, segs, maps, os.granted,
                 params.granularity, noncontiguous);
      InitTopChunk(tbase, tsize - TOP_FOOT_SIZE);
      m1 := heap.arena.mem;
      segs := [Segment(tbase, tsize, mmapped, 0), segs[0].(at := csp + 16)] + segs[1..];
      psize := SealTop(oldTop, csp, PadRequest(32), oldEnd, s);
    }

    /** add_segment, up to the binning of the old top.  The new top counts as a chunk if its size is
        a multiple of 8. */
    method CapTop(tbase: int, tsize: nat, mmapped: bool) returns (oldTop: int, psize: nat)
      requires Sound() && segs != [] && tsize >= SYS_ALLOC_PADDING + 16
      requires NewBlock(segs, maps, tbase, tsize) && Has(os.granted, tbase, tsize)
      requires mmapped ==> noncontiguous && Whole(tsize, params.granularity)
      requires heap.arena.leastAddr <= tbase
      modifies this`segs, this`trimCheck, heap`top, heap`topsize, heap`h, heap.arena`mem
      ensures segs == WithSegment(old(heap.h), old(segs), Segment(tbase, tsize, mmapped, 0))
      ensures heap.topsize + SYS_ALLOC_PADDING > tsize && heap.topsize % 8 == (tbase + tsize) % 8 && TopEnds()
      ensures oldTop == old(heap.top) == old(heap.h).top && oldTop in old(heap.h).C
        && old(heap.h).C[oldTop] == old(heap.topsize) && (psize == 0 <==> old(heap.topsize) < MIN_CHUNK_SIZE)
        && Fenced(heap.arena.mem, RecordPlace(old(heap.h)) + 48, old(segs)[0].End())
      ensures heap.Sound() && (psize != 0 ==>
           oldTop in heap.h.C && heap.h.C[oldTop] == psize && Binnable(heap.Bins(), heap.h, oldTop))
      ensures heap.topsize % 8 == 0 ==>
        && heap.h == WithRegion(Capped(old(heap.h), First(old(segs)[0])), First(segs[0]), segs[0].End() - TOP_FOOT_SIZE)
        && heap.Holds(if psize == 0 then {} else {oldTop})
        && Laid(heap.arena.mem, heap.h, heap.arena.leastAddr, segs, maps, os.granted, params.granularity, noncontiguous)
        && SegTotal(segs) == old(SegTotal(segs)) + tsize
        && Held() == old(Held()) && Kept(old(heap.arena.mem), old(Held()), heap.arena.mem, Held(), {})
    {
      hide ReuseOrder.Recorded, Whole, HeapOk, LostOk, Laid, NewBlock, Has, Usable, Kept, SegsOk, CapWrites, InitTop,
        Capped, WithRegion, WithSegment, SegTotal, Core, Spare, MarksOk, AlignAsChunk, Binnable, Fenced, WithPinuse,
        RecordPlace;
      ghost var m, b, h, k, least := heap.arena.mem, heap.Bins(), heap.h, heap.Fields(), heap.arena.leastAddr;
      ghost var s, segs0 := Segment(tbase, tsize, mmapped, 0), segs;
      ghost var m1;
      oldTop, psize, m1 := WriteSegment(tbase, tsize, mmapped);
      WithSegmentHas(h, segs0, s);
      NewTopSize(tbase, tsize, heap.top, heap.topsize);
      NewIsHigh(segs0, maps, tbase, tsize);
      AlignsUp(tbase);
      OldTopCapped(m, m1, heap.arena.mem, b, h, k, least, segs0, maps, os.granted, params.granularity,
                   noncontiguous, tbase, tsize, WithPinuse(heap.topsize));
      heap.h := Capped(h, First(segs0[0]));
      if heap.topsize % 8 == 0 {
        NewTop(m, m1, heap.arena.mem, b, h, k, least, segs0, maps, os.granted, params.granularity,
               noncontiguous, s);
        heap.h := WithRegion(Capped(h, First(segs0[0])), First(s), s.End() - TOP_FOOT_SIZE);
      }
    }

    /** The end of add_segment: the rest of the old top goes into a bin. */
    method BinOldTop(p: int, psize: nat)
      requires heap.Sound() && p in heap.h.C && heap.h.C[p] == psize && Binnable(heap.Bins(), heap.h, p)
      requires heap.topsize % 8 == 0 ==>
        heap.Holds({p}) && Laid(heap.arena.mem, heap.h, heap.arena.leastAddr, segs, maps, os.granted,
                                params.granularity, noncontiguous)
      modifies heap, heap.small, heap.tree, heap.arena`mem
      ensures heap.Linked() && heap.h == old(heap.h) && heap.Fields() == old(heap.Fields()) && p in Binned(heap.Bins())
        && Tame(old(heap.arena.mem), heap.h, heap.arena.mem, heap.h, {})
      ensures heap.topsize % 8 == 0 ==>
        Sound() && Held() == old(Held()) && Kept(old(heap.arena.mem), Held(), heap.arena.mem, Held(), {})
    {
      hide ReuseOrder.Recorded, Core, Binned, Tame, HeadsKept, Put, Spare, MarksOk, HeapOk, Binnable,
        Laid, Kept, Usable;
      ghost var m, b, h, k, least := heap.arena.mem, heap.Bins(), heap.h, heap.Fields(), heap.arena.leastAddr;
      heap.InsertChunk(p, psize);
      if heap.topsize % 8 == 0 {
        Stored(m, heap.arena.mem, b, heap.Bins(), h, k, least, {p}, p);
        assert {p} - {p} == {};
        StepAll(m, b, h, k, least, heap.arena.mem, heap.Bins(), h, k, {}, segs, maps, os.granted,
                params.granularity, noncontiguous, {p}, {});
      }
    }

    /** add_segment */
    method AddSegment(tbase: int, tsize: nat, mmapped: bool)
      requires Sound() && segs != [] && tsize >= SYS_ALLOC_PADDING + 16
      requires NewBlock(segs, maps, tbase, tsize) && Has(os.granted, tbase, tsize)
      requires mmapped ==> noncontiguous && Whole(tsize, params.granularity)
      requires heap.arena.leastAddr <= tbase
      modifies this`segs, this`trimCheck, heap, heap.small, heap.tree, heap.arena`mem
      ensures heap.Linked() && |segs| == |old(segs)| + 1 && segs[0] == Segment(tbase, tsize, mmapped, 0)
        && segs[1] == old(segs)[0].(at := segs[1].at) && segs[2..] == old(segs)[1..]
      ensures heap.topsize % 8 == 0 ==>
        Sealed(heap.arena.mem, heap.Bins(), heap.h, old(heap.top), old(heap.topsize), old(segs)[0].End(), segs[1].at)
      ensures heap.topsize + SYS_ALLOC_PADDING > tsize && heap.topsize % 8 == (tbase + tsize) % 8 && TopEnds()
      ensures heap.topsize % 8 == 0 ==>
        && Sound() && SegTotal(segs) == old(SegTotal(segs)) + tsize
        && Held() == old(Held()) && Kept(old(heap.arena.mem), old(Held()), heap.arena.mem, Held(), {})
    {
      hide ReuseOrder.Recorded, Core, Binned, Tame, Spare, MarksOk, HeapOk, Binnable, Laid, Kept, Usable,
        NewBlock, Has, SegTotal, Sealed, Fenced, WithSegment, WithRegion, Capped, SegsOk, MapsOk, TagsOk, RecordPlace;
      ghost var m0, u0, h0, segs0, s := heap.arena.mem, Held(), heap.h, segs, Segment(tbase, tsize, mmapped, 0);
      TagsIn(m0, heap.Bins(), h0, heap.Fields(), heap.arena.leastAddr, {});
      LaidSegs(m0, h0, heap.arena.leastAddr, segs0, maps, os.granted, params.granularity, noncontiguous);
      var oldTop, psize := CapTop(tbase, tsize, mmapped);
      WithSegmentHas(h0, segs0, s);
      ghost var m := heap.arena.mem;
      if psize != 0 {
        BinOldTop(oldTop, psize);
        if heap.topsize % 8 == 0 { KeptOn(m0, u0, m, u0, heap.arena.mem, u0); }
      } else {
        SameMemory(m, heap.h);
      }
      if heap.topsize % 8 == 0 {
        TagsIn(heap.arena.mem, heap.Bins(), heap.h, heap.Fields(), heap.arena.leastAddr, {});
        FirstBeforeEnd(s);
        SealStays(m0, h0, segs0, maps, s, m, heap.arena.mem, heap.Bins());
      }
    }

    /** prepend_alloc: the rest of the new memory joins the chunk behind it, or goes into a bin. */
    method PrependRest(oldfirst: int, q: int, qsize0: nat, ghost p: int,
                       ghost nb: int) returns (ghost m1: Mem, ghost b1: BinState, ghost X: set<int>)
      requires heap.Linked() && FrontRequest(heap.arena.mem, heap.Bins(), heap.h, heap.Fields(), heap.arena.leastAddr,
                                             {}, oldfirst, p, nb)
      requires q == p + nb && qsize0 == oldfirst - q && qsize0 >= MIN_CHUNK_SIZE
      modifies heap, heap.small, heap.tree, heap.arena`mem
      ensures heap.Valid() && oldfirst in old(heap.h).R && oldfirst in old(heap.h).C
      ensures RestJoins(old(heap.h), old(heap.Fields()), heap.h, heap.Fields(), heap.Bins(), oldfirst, q)
      ensures Tame(old(heap.arena.mem), old(heap.h), m1, old(heap.h), {})
      ensures FrontRequest(m1, b1, old(heap.h), old(heap.Fields()), heap.arena.leastAddr, X, oldfirst, p, nb)
      ensures Prepended(Filled(m1, oldfirst, p), Fronted(old(heap.h), oldfirst, p), heap.arena.mem, heap.h, p, nb)
    {
      hide ReuseOrder.Recorded, Core, Binned, Tame, HeadsKept, Put, Take, Spare, MarksOk, HeapOk, LostOk, Binnable,
        FrontRequest, Prepended, Filled, Fronted, FrontCut, One, ChunkSize, IsInuse, Pinuse;
      ghost var m, b, h, k, least := heap.arena.mem, heap.Bins(), heap.h, heap.Fields(), heap.arena.leastAddr;
      OldFirst(m, b, h, k, least, oldfirst, p, nb);
      SameMemory(m, h);
      m1, b1, X := m, b, {};
      if oldfirst == heap.top {
        FrontIntoTop(m, b, h, k, least, oldfirst, p, nb);
        var tsize := heap.topsize + qsize0;
        heap.topsize := tsize;
        heap.top := q;
        heap.arena.mem := SetTopHead(heap.arena.mem, q, tsize);
        heap.h := One(FrontCut(h, oldfirst, p, nb), q, q + tsize, false);
      } else if oldfirst == heap.dv {
        FrontIntoDv(m, b, h, k, least, oldfirst, p, nb);
        var dsize := heap.dvsize + qsize0;
        heap.dvsize := dsize;
        heap.dv := q;
        heap.arena.mem := SetSizeFree(heap.arena.mem, q, dsize);
        heap.h := One(FrontCut(h, oldfirst, p, nb), q, q + dsize, false);
      } else {
        var qsize, next := qsize0, oldfirst;
        if !IsInuse(Rd(heap.arena.mem, oldfirst + 8)) {
          var nsize := ChunkSize(Rd(heap.arena.mem, oldfirst + 8));
          heap.UnlinkChunk(oldfirst, nsize);
          Fetched(m, heap.arena.mem, b, heap.Bins(), h, k, least, {}, oldfirst);
          assert {} + {oldfirst} == {oldfirst};
          m1, b1, X := heap.arena.mem, heap.Bins(), {oldfirst};
          RequestAfterUnlink(m, b, h, k, least, m1, b1, oldfirst, p, nb);
          FrontWithNext(m1, b1, h, k, least, oldfirst, p, nb);
          next := oldfirst + nsize;
          qsize := qsize + nsize;
        } else {
          FrontBeforeUsed(m, b, h, k, least, oldfirst, p, nb);
        }
        heap.arena.mem := SetFreeWithPinuse(heap.arena.mem, q, qsize, next);
        heap.h := One(FrontCut(h, oldfirst, p, nb), q, next, false);
        ghost var m2, h2 := heap.arena.mem, heap.h;
        OneShape(FrontCut(h, oldfirst, p, nb), q, next, false);
        MayBeBinned(m2, b1, h2, k, least, {q}, q);
        heap.InsertChunk(q, qsize);
        Stored(m2, heap.arena.mem, b1, heap.Bins(), h2, k, least, {q}, q);
        assert {q} - {q} == {};
        PrependedOn(Filled(m1, oldfirst, p), Fronted(h, oldfirst, p), m2, h2, heap.arena.mem, p, nb);
      }
    }

    /** prepend_alloc: the chunk for the request. */
    method PrependHead(tbase: int, oldbase: int, nb: int, ghost segs0: seq<Segment>, ghost i: nat, ghost tsize: nat)
      returns (p: int, oldfirst: int, q: int, qsize: nat)
      requires heap.Valid() && i < |segs0| && nb % 16 == 0 && nb >= MIN_CHUNK_SIZE && nb + SYS_ALLOC_PADDING <= tsize
      requires Laid(heap.arena.mem, heap.h, heap.arena.leastAddr, segs0, maps, os.granted,
                    params.granularity, noncontiguous)
      requires NewBlock(segs0, maps, tbase, tsize)
      requires oldbase == tbase + tsize == segs0[i].base && heap.arena.leastAddr <= tbase
      modifies heap.arena`mem
      ensures p == AlignAsChunk(tbase) && oldfirst == First(segs0[i]) && q == p + nb && qsize == oldfirst - q
        && qsize >= MIN_CHUNK_SIZE
      ensures p >= HEAP_MIN && p % 16 == 0 && TagsOk(heap.arena.mem, heap.h)
      ensures FrontRequest(heap.arena.mem, heap.Bins(), heap.h, heap.Fields(), heap.arena.leastAddr, {},
                           oldfirst, p, nb)
      ensures Laid(heap.arena.mem, heap.h, heap.arena.leastAddr, segs0, maps, os.granted,
                   params.granularity, noncontiguous)
      ensures Kept(old(heap.arena.mem), Held(), heap.arena.mem, Held(), {})
    {
      hide ReuseOrder.Recorded, Whole, HeapOk, LostOk, FrontRequest, Laid, Kept, Usable, NewBlock, AlignAsChunk,
        SetSizeInuse, TagsOk;
      AlignsUp(tbase);
      AlignsUp(oldbase);
      PrependPlace(heap.arena.mem, heap.Bins(), heap.h, heap.Fields(), heap.arena.leastAddr, segs0, maps, os.granted,
                   params.granularity, noncontiguous, i, tbase, tsize, nb);
      p := AlignAsChunk(tbase);
      oldfirst := AlignAsChunk(oldbase);
      var psize := oldfirst - p;
      q := p + nb;
      qsize := psize - nb;
      heap.arena.mem := SetSizeInuse(heap.arena.mem, p, nb);
    }

    /** prepend_alloc; segs0 are the segments before the one at oldbase got its new base. */
    method PrependAlloc(tbase: int, oldbase: int, nb: int, ghost segs0: seq<Segment>, ghost i: nat,
                        ghost tsize: nat) returns (mem: int)
      requires heap.Valid() && i < |segs0| && nb % 16 == 0 && nb >= MIN_CHUNK_SIZE && nb + SYS_ALLOC_PADDING <= tsize
      requires Laid(heap.arena.mem, heap.h, heap.arena.leastAddr, segs0, maps, os.granted,
                    params.granularity, noncontiguous)
      requires NewBlock(segs0, maps, tbase, tsize) && Has(os.granted, tbase, tsize)
      requires oldbase == tbase + tsize == segs0[i].base && heap.arena.leastAddr <= tbase
      requires segs == Resized(segs0, i, tbase, tsize + segs0[i].size)
        && (segs0[i].mmapped ==> Whole(tsize, params.granularity))
      modifies heap, heap.small, heap.tree, heap.arena`mem
      ensures Sound() && mem % 16 == 0 && mem > 16 && mem - 16 !in old(Held())
        && Held() == old(Held())[mem - 16 := nb - 8]
      ensures mem - 16 == AlignAsChunk(tbase) && First(segs0[i]) in old(heap.h).C
        && RestJoins(old(heap.h), old(heap.Fields()), heap.h, heap.Fields(), heap.Bins(), First(segs0[i]),
                     mem - 16 + nb)
      ensures Kept(old(heap.arena.mem), old(Held()), heap.arena.mem, Held(), {})
    {
      hide ReuseOrder.Recorded, Core, Binned, Tame, Spare, MarksOk, HeapOk, LostOk, FrontRequest, Prepended, Filled,
        Fronted, Laid, Kept, Usable, NewBlock, Has, MayFront, Resized, AlignAsChunk, SetSizeInuse, TagsOk;
      ghost var m0, h, k, least := heap.arena.mem, heap.h, heap.Fields(), heap.arena.leastAddr;
      AlignsUp(tbase);
      var p, oldfirst, q, qsize := PrependHead(tbase, oldbase, nb, segs0, i, tsize);
      ghost var m := heap.arena.mem;
      ghost var m1, b1, X := PrependRest(oldfirst, q, qsize, p, nb);
      PrependDone(m0, m, h, k, least, m1, b1, X, segs0, maps, os.granted, params.granularity, noncontiguous, i,
                  tbase, tsize, nb, heap.arena.mem, heap.Bins(), heap.h, heap.Fields());
      mem := p + 16;
    }

    method SegmentEndingAt(a: int) returns (i: nat)
      ensures i <= |segs| && (i < |segs| ==> segs[i].End() == a) && forall j | 0 <= j < i :: segs[j].End() != a
    {
      i := 0;
      while i < |segs| && segs[i].End() != a
        invariant i <= |segs| && forall j | 0 <= j < i :: segs[j].End() != a
      {
        i := i + 1;
      }
    }

    method SegmentStartingAt(a: int) returns (i: nat)
      ensures i <= |segs| && (i < |segs| ==> segs[i].base == a) && forall j | 0 <= j < i :: segs[j].base != a
    {
      i := 0;
      while i < |segs| && segs[i].base != a
        invariant i <= |segs| && forall j | 0 <= j < i :: segs[j].base != a
      {
        i := i + 1;
      }
    }

    /** sys_alloc, with new memory that does not extend the segment of top: in front of a segment, or as one. */
    method PlaceElsewhere(tbase: int, tsize: nat, mmapped: bool, nb: nat) returns (mem: int)
      requires Sound() && segs != [] && nb % 16 == 0 && nb >= MIN_CHUNK_SIZE && nb + SYS_ALLOC_PADDING <= tsize
      requires NewBlock(segs, maps, tbase, tsize) && Has(os.granted, tbase, tsize)
      requires mmapped ==> noncontiguous && Whole(tsize, params.granularity)
      modifies this`segs, this`trimCheck, heap, heap.small, heap.tree, heap.arena
      ensures mem != 0 <==> Prepends(old(segs), tbase + tsize, mmapped)
      ensures mem == 0 ==>
        heap.Linked() && heap.topsize > nb && heap.topsize % 8 == (tbase + tsize) % 8 && segs != [] && TopEnds()
      ensures mem != 0 || heap.topsize % 8 == 0 ==>
        && Sound() && SegTotal(segs) == old(SegTotal(segs)) + tsize
        && (mem == 0 ==> Held() == old(Held()))
        && (mem != 0 ==> Gained(old(Held()), Held(), mem - 16, nb) && Held()[mem - 16] < nb + 24 && mem - 16 !in maps)
        && Kept(old(heap.arena.mem), old(Held()), heap.arena.mem, Held(), {})
    {
      hide ReuseOrder.Recorded, Whole, HeapOk, LostOk, Laid, Kept, NewBlock, Has, SegTotal, Gained, Usable;
      if tbase < heap.arena.leastAddr {
        NewIsHigh(segs, maps, tbase, tsize);
        LowerAll(heap.arena.mem, heap.Bins(), heap.h, heap.Fields(), heap.arena.leastAddr, tbase, segs, maps,
                 os.granted, params.granularity, noncontiguous);
        heap.arena.leastAddr := tbase;
      }
      var i := SegmentStartingAt(tbase + tsize);
      OneStart(heap.arena.mem, heap.Bins(), heap.h, heap.Fields(), heap.arena.leastAddr, segs, maps, os.granted,
               params.granularity, noncontiguous, tbase + tsize, i, mmapped);
      if i < |segs| && segs[i].mmapped == mmapped {
        ghost var segs0 := segs;
        var oldbase := segs[i].base;
        SegTotalUpdate(segs, i, segs[i].(base := tbase, size := tsize + segs[i].size));
        segs := Resized(segs, i, tbase, tsize + segs[i].size);
        ghost var h0 := heap.h;
        mem := PrependAlloc(tbase, oldbase, nb, segs0, i, tsize);
        GainedNew(h0, maps, Held(), mem - 16, nb);
      } else {
        AddSegment(tbase, tsize, mmapped);
        mem := 0;
      }
    }

    /** sys_alloc: memory that was obtained becomes part of the heap. */
    method PutToUse(tbase: int, tsize: nat, mmapped: bool, nb: nat) returns (mem: int)
      requires Sound() && nb % 16 == 0 && nb >= MIN_CHUNK_SIZE && Enough(segs, heap.topsize, nb, tbase, tsize)
      requires NewBlock(segs, maps, tbase, tsize) && Has(os.granted, tbase, tsize) && (segs != [] ==> tsize % 16 == 0)
      requires mmapped ==> noncontiguous && Whole(tsize, params.granularity) && nb + SYS_ALLOC_PADDING <= tsize
      modifies this`segs, this`trimCheck, this`releaseChecks, heap, heap.small, heap.tree, heap.arena
      ensures mem != 0 ==> Prepends(old(segs), tbase + tsize, mmapped)
      ensures mem == 0 ==>
        heap.Linked() && heap.topsize > nb && heap.topsize % 8 == (tbase + tsize) % 8 && segs != [] && TopEnds()
      ensures mem == 0 && Prepends(old(segs), tbase + tsize, mmapped) ==> heap.topsize % 8 == 0
      ensures mem != 0 || heap.topsize % 8 == 0 ==>
        && Sound() && SegTotal(segs) == old(SegTotal(segs)) + tsize
        && (mem == 0 ==> Held() == old(Held()))
        && (mem != 0 ==> Gained(old(Held()), Held(), mem - 16, nb) && Held()[mem - 16] < nb + 24 && mem - 16 !in maps)
        && Kept(old(heap.arena.mem), old(Held()), heap.arena.mem, Held(), {})
    {
      hide ReuseOrder.Recorded, Whole, HeapOk, LostOk, Kept, Usable, NewBlock, Has, SegTotal, SegsOk, MapsOk, HasAll,
        Kinds, MapsAbove, Prepends, Gained;
      ghost var m, b, h, k, least := heap.arena.mem, heap.Bins(), heap.h, heap.Fields(), heap.arena.leastAddr;
      TopPlace(m, b, h, k, least, segs);
      mem := 0;
      if heap.top == 0 {
        NonePrepends(tbase + tsize, mmapped);
        FirstSegment(tbase, tsize, mmapped);
      } else {
        TopSegmentHolds(m, b, h, k, least, segs);
        var i := SegmentEndingAt(tbase);
        if i < |segs| && segs[i].mmapped == mmapped && SegHolds(segs[i], heap.top) {
          OnlyTopSegment(m, b, h, k, least, segs, maps, os.granted, i);
          TopAligned(m, b, h, k, least, segs, maps, os.granted, params.granularity, noncontiguous);
          AddedEights(heap.topsize, tbase, tsize);
          Append(tsize);
        } else {
          mem := PlaceElsewhere(tbase, tsize, mmapped, nb);
        }
      }
    }

    /** sys_alloc, after memory was obtained.  The heap is in order afterwards if, and only if, the memory ends at a
        multiple of 8 or right before a segment of its kind. */
    method Install(tbase: int, tsize: nat, mmapped: bool, nb: nat) returns (mem: int)
      requires Valid() && nb % 16 == 0 && nb >= MIN_CHUNK_SIZE && Enough(segs, heap.topsize, nb, tbase, tsize)
      requires NewBlock(segs, maps, tbase, tsize) && Has(os.granted, tbase, tsize) && (segs != [] ==> tsize % 16 == 0)
      requires mmapped ==> noncontiguous && Whole(tsize, params.granularity) && nb + SYS_ALLOC_PADDING <= tsize
      modifies this`segs, this`trimCheck, this`releaseChecks, this`footprint, this`maxFootprint, heap, heap.small,
        heap.tree, heap.arena
      ensures footprint == old(footprint) + tsize
      ensures heap.topsize % 8 == 0 <==> (tbase + tsize) % 8 == 0 || Prepends(old(segs), tbase + tsize, mmapped)
      ensures mem != 0
      ensures heap.topsize % 8 == 0 ==>
        && Valid() && Gained(old(Held()), Held(), mem - 16, nb) && Held()[mem - 16] < nb + 24
        && mem - 16 !in maps
        && Kept(old(heap.arena.mem), old(Held()), heap.arena.mem, Held(), {})
      ensures heap.topsize % 8 != 0 ==>
        !Valid() && segs != [] && Misread(heap.arena.mem, heap.top, heap.topsize, segs[0].End())
    {
      hide ReuseOrder.Recorded, Whole, HeapOk, LostOk, Kept, Usable, NewBlock, Has, SegTotal, Laid, Served, Enough,
        HeapModel.UseTop, Prepends, Gained;
      ghost var m0, u0 := heap.arena.mem, Held();
      Count(tsize);
      mem := PutToUse(tbase, tsize, mmapped, nb);
      if mem == 0 && nb < heap.topsize { mem := ServeNew(nb, m0, u0); }
      PlacedTop(heap.arena.mem, heap.Bins(), heap.h, heap.Fields(), heap.arena.leastAddr);
      if heap.topsize % 8 != 0 { Misreads(heap.arena.mem, heap.top, heap.topsize, segs[0].End()); }
    }

    /** The request is cut from the new or longer top. */
    method ServeNew(nb: nat, ghost m0: Mem, ghost u0: map<int, int>) returns (mem: int)
      requires heap.Linked() && nb % 16 == 0 && MIN_CHUNK_SIZE <= nb < heap.topsize
      requires heap.topsize % 8 == 0 ==> Sound() && Held() == u0 && Kept(m0, u0, heap.arena.mem, u0, {})
      modifies heap, heap.arena`mem
      ensures heap.topsize % 8 == old(heap.topsize) % 8
      ensures Rd(heap.arena.mem, heap.top + 8) == WithPinuse(heap.topsize)
        && (old(heap.top) % 16 == 0 ==> heap.top % 16 == 0) && mem == old(heap.top) + 16
        && heap.top + heap.topsize == old(heap.top + heap.topsize)
      ensures heap.topsize % 8 == 0 ==>
        && mem != 0 && Sound() && Gained(u0, Held(), mem - 16, nb) && Held()[mem - 16] < nb + 24 && mem - 16 !in maps
        && Kept(m0, u0, heap.arena.mem, Held(), {})
    {
      hide ReuseOrder.Recorded, Whole, HeapOk, Kept, Usable, Laid, Served, HeapModel.UseTop, WithPinuse;
      ghost var m, b, h, k, least := heap.arena.mem, heap.Bins(), heap.h, heap.Fields(), heap.arena.leastAddr;
      LessSixteens(heap.topsize, nb);
      mem := heap.ServeFromTop(nb);
      if heap.topsize % 8 == 0 {
        ServedAll(m, b, h, k, least, heap.arena.mem, heap.Bins(), heap.h, heap.Fields(), segs, maps, os.granted,
                  params.granularity, noncontiguous, mem - 16, nb);
        KeptOn(m0, u0, m, u0, heap.arena.mem, Held());
      }
    }

    // -------------------------------------------------------------------------------------
    // sys_alloc

    /** Whether n more bytes are within the limit. */
    method MayAsk(n: nat) returns (ok: bool)
      requires Valid() && n < WORD
      ensures ok ==> footprintLimit == 0 || footprint + n <= footprintLimit
      ensures n > 0 ==> (ok <==> MayTake(Now(), n))
    {
      hide ReuseOrder.Recorded, Whole, HeapOk, LostOk, SpaceOk, Kinds, MapsAbove, SegTotal, MapTotal, Wrap;
      ok := true;
      if footprintLimit != 0 {
        var fp := Wrap(footprint + n);
        FootprintNat(heap.arena.mem, heap.h, segs, maps, os.granted) by {
          TagsIn(heap.arena.mem, heap.Bins(), heap.h, heap.Fields(), heap.arena.leastAddr, {});
        }
        WithinLimit(footprint, n, footprintLimit);
        if n > 0 { TakesIf(Now(), n); }
        if fp <= footprint || fp > footprintLimit { ok := false; }
      }
    }

    /** The footprint grows. */
    method Count(n: int)
      modifies this`footprint, this`maxFootprint
      ensures footprint == old(footprint) + n <= maxFootprint
    {
      footprint := footprint + n;
      if footprint > maxFootprint {
        maxFootprint := footprint;
      }
    }

    /** mmap_alloc, with the mapping at hand. */
    method UseMapping(mm: int, mmsize: nat, nb: nat, ghost g0: set<int>) returns (mem: int)
      requires heap.Valid() && Laid(heap.arena.mem, heap.h, heap.arena.leastAddr, segs, maps, g0,
                                    params.granularity, noncontiguous)
      requires footprint == SegTotal(segs) + MapTotal(maps) && footprint <= maxFootprint && LostOk(lost, maps)
        && segs != [] && os.Ok()
      requires Got(g0, os.granted, mm, mmsize) && mm % 16 == 0 && mmsize % 16 == 0
        && nb + SIX_SIZE_T_SIZES + 15 <= mmsize && nb >= MIN_CHUNK_SIZE
      modifies this`footprint, this`maxFootprint, this`maps, heap.arena
      requires 0 <= footprintLimit < WORD
      ensures Valid() && mem != 0 && Gained(old(Held()), Held(), mem - 16, nb) && mem - 16 in maps
        && footprint == old(footprint) + mmsize && mem == mm + 16
      ensures Kept(old(heap.arena.mem), old(Held()), heap.arena.mem, Held(), {})
    {
      hide ReuseOrder.Recorded, Whole, HeapOk, SpaceOk, SegTotal, MapTotal, Got, Laid, Kept, Usable, MmapTags,
        AlignOffset;
      ghost var m, b, h, k, least := heap.arena.mem, heap.Bins(), heap.h, heap.Fields(), heap.arena.leastAddr;
      var offset := AlignOffset(mm + 16);
      var psize := mmsize - offset - MMAP_FOOT_PAD;
      var p := mm + offset;
      heap.arena.mem := MmapTags(heap.arena.mem, p, offset, psize);
      if heap.arena.leastAddr == 0 || mm < heap.arena.leastAddr {
        heap.arena.leastAddr := mm;
      }
      MapAll(m, b, h, k, least, segs, maps, g0, os.granted, params.granularity, noncontiguous, mm, mmsize, nb,
             heap.arena.leastAddr);
      maps := maps[p := Mapping(mm, mmsize)];
      Count(mmsize);
      mem := p + 16;
    }

    /** mmap_alloc */
    method MmapAlloc(nb: nat) returns (mem: int, ghost made: seq<SysCall>)
      requires Valid() && segs != [] && ((nb % 16 == 0 && MIN_CHUNK_SIZE <= nb < WORD) || nb == MAX_SIZE_T)
      modifies this`footprint, this`maxFootprint, this`maps, heap.arena, os
      ensures Valid() && (mem == 0 ==>
           Held() == old(Held()) && footprint == old(footprint) && heap.arena.mem == old(heap.arena.mem))
      ensures mem != 0 ==>
        && Gained(old(Held()), Held(), mem - 16, nb)
        && Kept(old(heap.arena.mem), old(Held()), heap.arena.mem, Held(), {})
        && nb != MAX_SIZE_T && mem - 16 in maps && (footprintLimit == 0 || footprint <= footprintLimit)
        && footprint >= old(footprint)
      ensures os.calls == old(os.calls) + made
      ensures var n := RoundTo(nb + 63, params.page);
        if mem != 0 then old(MayTake(Now(), n)) && made == [MmapCall(n, mem - 16)] && mem - 16 != FAIL
        else if nb + 63 + params.page <= WORD && MayTake(Now(), n) then made == [MmapCall(n, FAIL)]
        else made == []
    {
      hide ReuseOrder.Recorded, Whole, HeapOk, LostOk, SpaceOk, Kinds, MapsAbove, SegTotal, MapTotal, Wrap, RoundTo,
        Got, Laid, New, Bytes, Kept, Usable, MmapTags, AlignOffset, MayTake;
      mem, made := 0, [];
      AskedIf(nb, SIX_SIZE_T_SIZES + 15, params.page);
      var mmsize := RoundTo(Wrap(nb + SIX_SIZE_T_SIZES + 15), params.page);
      RoundedIsWord(Wrap(nb + SIX_SIZE_T_SIZES + 15), params.page);
      var ok := MayAsk(mmsize);
      if !ok { return; }
      if mmsize > nb {
        AskedSize(nb, SIX_SIZE_T_SIZES + 15, params.page);
        ghost var g0 := os.granted;
        var mm := os.Mmap(mmsize);
        made := [MmapCall(mmsize, mm)];
        if mm != FAIL {
          GotAtOnce(g0, mm, mmsize);
          mem := UseMapping(mm, mmsize, nb, g0);
        }
      }
    }

    /** The third way to get memory: MORECORE, wherever it leads. */
    method NoncontiguousMorecore(nb: nat, asize: nat) returns (tbase: int, tsize: nat, ghost made: seq<SysCall>)
      requires 0 < asize < WORD && asize % 16 == 0 && os.Ok() && nb + TOP_FOOT_SIZE < asize
      modifies os
      ensures old(os.granted) <= os.granted && os.Ok()
      ensures tbase != FAIL ==>
        tsize == asize && Got(old(os.granted), os.granted, tbase, tsize) && (os.tidy ==> (tbase + tsize) % 8 == 0)
      ensures os.calls == old(os.calls) + made
      ensures tbase == FAIL ==>
        if asize < HALF_MAX_SIZE_T then
          |made| == 2 && made[0] == SbrkCall(asize, FAIL) && made[1].SbrkCall? && made[1].n == 0
        else made == []
    {
      hide ReuseOrder.Recorded, New, Bytes, Got;
      tbase, tsize, made := FAIL, 0, [];
      if asize < HALF_MAX_SIZE_T {
        ghost var g0 := os.granted;
        var br := os.Morecore(asize);
        var end := os.Morecore(0);
        made := [SbrkCall(asize, br), SbrkCall(0, end)];
        if br != FAIL { GotAtOnce(g0, br, asize); }
        if br != FAIL && end != FAIL && br < end {
          var ssize := end - br;
          if ssize > nb + TOP_FOOT_SIZE {
            if os.tidy { AddedEights(0, br, ssize); }
            tbase, tsize := br, ssize;
          }
        }
      }
    }

    /** The second and third way to get memory. */
    method Anywhere(nb: nat, asize: nat) returns (tbase: int, tsize: nat, mmapped: bool, ghost made: seq<SysCall>)
      requires 0 < asize < WORD && asize % 16 == 0 && os.Ok() && nb + TOP_FOOT_SIZE < asize
      modifies os
      ensures old(os.granted) <= os.granted && os.Ok()
      ensures tbase != FAIL ==>
        tsize == asize && Got(old(os.granted), os.granted, tbase, tsize)
          && (mmapped || os.tidy ==> (tbase + tsize) % 8 == 0)
      ensures os.calls == old(os.calls) + made && (tbase == FAIL ==> NoneElsewhere(asize, made))
    {
      hide ReuseOrder.Recorded, New, Bytes, Got, NoneElsewhere;
      ghost var g0 := os.granted;
      var mp := os.Mmap(asize);
      made := [MmapCall(asize, mp)];
      if mp != FAIL {
        GotAtOnce(g0, mp, asize);
        BothSixteens(mp, asize);
        tbase, tsize, mmapped := mp, asize, true;
      } else {
        mmapped := false;
        ghost var more;
        tbase, tsize, more := NoncontiguousMorecore(nb, asize);
        Joined(old(os.calls), made, more);
        if tbase == FAIL { ElsewhereRefused(asize, more); }
        made := made + more;
      }
    }

    /** The three ways to get memory, one after the other. */
    method Obtain(nb: nat, asize: nat) returns (tbase: int, tsize: nat, mmapped: bool, ghost made: seq<SysCall>)
      requires Valid() && heap.topsize <= nb && Asked(nb, params.granularity, asize)
      requires footprintLimit == 0 || footprint + asize <= footprintLimit
      modifies this`noncontiguous, os
      ensures Valid()
      ensures tbase != FAIL ==>
        && NewBlock(segs, maps, tbase, tsize) && Has(os.granted, tbase, tsize)
        && Enough(segs, heap.topsize, nb, tbase, tsize) && (footprintLimit == 0 || footprint + tsize <= footprintLimit)
        && (mmapped ==> noncontiguous && Whole(tsize, params.granularity) && nb + SYS_ALLOC_PADDING <= tsize)
        && (segs != [] ==> tsize % 16 == 0) && (mmapped || os.tidy ==> (tbase + tsize) % 8 == 0)
      ensures os.calls == old(os.calls) + made && 0 <= heap.topsize <= nb
      ensures tbase == FAIL ==> NoSegment(old(Now()), nb, made)
    {
      hide ReuseOrder.Recorded, HeapOk, LostOk, SpaceOk, MapsAbove, Kinds, SegTotal, MapTotal, RoundTo, New, Bytes,
        Got, NewBlock, Has, NoExtension, NoneElsewhere, NoSegment, SegsOk, TagsOk;
      tbase, tsize, mmapped, made := FAIL, 0, false, [];
      ghost var s, c0 := Now(), os.calls;
      LaidSegs(heap.arena.mem, heap.h, heap.arena.leastAddr, segs, maps, os.granted, params.granularity, noncontiguous);
      TopPlace(heap.arena.mem, heap.Bins(), heap.h, heap.Fields(), heap.arena.leastAddr, segs);
      if noncontiguous { NotExtended(s, nb); }
      ghost var m, h, g0 := heap.arena.mem, heap.h, os.granted;
      TagsIn(m, heap.Bins(), h, heap.Fields(), heap.arena.leastAddr, {});
      if !noncontiguous {
        var n;
        tbase, n, made := Contiguous(nb, asize);
        if tbase != FAIL {
          GotBlock(m, h, segs, maps, g0, os.granted, tbase, n);
          assert n > 0;
          tsize := n;
        }
      }
      if tbase == FAIL {
        ghost var g1 := os.granted;
        ghost var more;
        tbase, tsize, mmapped, more := Anywhere(nb, asize);
        if tbase == FAIL { SegmentRefused(s, nb, made, more); }
        Joined(c0, made, more);
        made := made + more;
        if tbase != FAIL {
          GotBlock(m, h, segs, maps, g1, os.granted, tbase, tsize);
        }
        StillLaid(m, h, heap.arena.leastAddr, segs, maps, g1, os.granted, params.granularity, true, true);
      }
    }

    /** sys_alloc, behind the direct mapping: from a segment that grows or is new. */
    method FromSegments(nb: nat) returns (mem: int, ghost made: seq<SysCall>)
      requires Valid() && heap.topsize <= nb && ((nb % 16 == 0 && MIN_CHUNK_SIZE <= nb < WORD) || nb == MAX_SIZE_T)
      modifies this`segs, this`trimCheck, this`releaseChecks, this`footprint, this`maxFootprint,
        this`noncontiguous, heap, heap.small, heap.tree, heap.arena, os
      ensures Valid() <==> heap.topsize % 8 == 0
      ensures heap.topsize % 8 != 0 ==> segs != [] && Misread(heap.arena.mem, heap.top, heap.topsize, segs[0].End())
      ensures os.tidy ==> heap.topsize % 8 == 0
      ensures mem == 0 ==>
        && heap.topsize % 8 == 0 && Held() == old(Held()) && footprint == old(footprint)
        && NoSegment(old(Now()), nb, made)
      ensures mem != 0 && heap.topsize % 8 == 0 ==>
        nb != MAX_SIZE_T && Gained(old(Held()), Held(), mem - 16, nb) && mem - 16 !in maps && Held()[mem - 16] < nb + 24
      ensures heap.topsize % 8 == 0 ==> Kept(old(heap.arena.mem), old(Held()), heap.arena.mem, Held(), {})
      ensures footprintLimit == 0 || footprint <= footprintLimit || footprint == old(footprint)
      ensures os.calls == old(os.calls) + made
    {
      hide ReuseOrder.Recorded, Whole, HeapOk, LostOk, Kinds, MapsAbove, SegTotal, MapTotal, RoundTo, New, Bytes,
        Got, NewBlock, Has, Gained, Wrap, Usable, Enough, SegsOk, MapsOk, HasAll, Prepends, Misread, NoSegment, MayTake;
      KeptSame(heap.arena.mem, Held());
      TopSize(heap.arena.mem, heap.Bins(), heap.h, heap.Fields(), heap.arena.leastAddr, {});
      mem, made := 0, [];
      AskedIf(nb, SYS_ALLOC_PADDING, params.granularity);
      var asize := RoundTo(Wrap(nb + SYS_ALLOC_PADDING), params.granularity);
      if asize <= nb {
        NothingAsked(Now(), nb);
        return;
      }
      AskedSize(nb, SYS_ALLOC_PADDING, params.granularity);
      var ok := MayAsk(asize);
      if !ok {
        NothingAsked(Now(), nb);
        return;
      }
      var tbase, tsize, mmapped;
      tbase, tsize, mmapped, made := Obtain(nb, asize);
      if tbase != FAIL {
        mem := Install(tbase, tsize, mmapped, nb);
      }
    }

    /** sys_alloc.  A request is refused only if all that can be asked of the system was asked in vain, or may not
        be asked (Refuses): then nothing changes for the program, and the footprint stays.  It is mapped by itself
        if it may be and can be.  The heap stays in order just if top does not get a size that is no multiple of 8,
        which other parts of the program can bring about by moving the break. */
    method SysAlloc(nb: nat) returns (mem: int)
      requires Valid() && heap.topsize <= nb && ((nb % 16 == 0 && MIN_CHUNK_SIZE <= nb < WORD) || nb == MAX_SIZE_T)
      modifies this`segs, this`trimCheck, this`releaseChecks, this`footprint, this`maxFootprint,
        this`noncontiguous, this`maps, heap, heap.small, heap.tree, heap.arena, os
      ensures Valid() <==> heap.topsize % 8 == 0
      ensures heap.topsize % 8 != 0 ==> segs != [] && Misread(heap.arena.mem, heap.top, heap.topsize, segs[0].End())
      ensures os.tidy ==> heap.topsize % 8 == 0
      ensures old(os.calls) <= os.calls
      ensures mem == 0 ==>
        && heap.topsize % 8 == 0 && Held() == old(Held()) && footprint == old(footprint)
        && Refuses(old(Now()), nb, os.calls[|old(os.calls)|..])
      ensures mem != 0 && heap.topsize % 8 == 0 ==>
        && nb != MAX_SIZE_T && Gained(old(Held()), Held(), mem - 16, nb)
        && if mem - 16 in maps then OwnMapping(old(Now()), nb, os.calls[|old(os.calls)|..], mem - 16)
           else Held()[mem - 16] < nb + 24 && NotMappedFirst(old(Now()), nb, os.calls[|old(os.calls)|..])
      ensures heap.topsize % 8 == 0 ==> Kept(old(heap.arena.mem), old(Held()), heap.arena.mem, Held(), {})
      ensures footprintLimit == 0 || footprint <= footprintLimit || footprint == old(footprint)
    {
      hide ReuseOrder.Recorded, HeapOk, LostOk, SegTotal, MapTotal, RoundTo, Gained, Usable, Laid, Misread, NoSegment,
        NoMapping, Refuses, OwnMapping, NotMappedFirst, MayTake, Kept;
      ghost var m0, u0, s, c0, made := heap.arena.mem, Held(), Now(), os.calls, [];
      TopSize(m0, heap.Bins(), heap.h, heap.Fields(), heap.arena.leastAddr, {});
      LaidSegs(m0, heap.h, heap.arena.leastAddr, segs, maps, os.granted, params.granularity, noncontiguous);
      TopPlace(m0, heap.Bins(), heap.h, heap.Fields(), heap.arena.leastAddr, segs);
      if useMmap && nb >= params.mmapThreshold && heap.topsize != 0 {
        mem, made := MmapAlloc(nb);
        if mem != 0 {
          HasOwnMapping(s, nb, made, mem - 16);
          Since(c0, made);
          return;
        }
      }
      IsNotMapped(s, nb, made);
      ghost var more;
      mem, more := FromSegments(nb);
      Joined(c0, made, more);
      Since(c0, made + more);
      BeginsUnmapped(s, nb, made, made + more);
      if mem == 0 { AllRefused(s, nb, made, more); }
    }

    // -------------------------------------------------------------------------------------
    // release_unused_segments and sys_trim

    /** The only chunk of a segment is taken out of its bin, or is dv no more. */
    method TakeUnused(p: int, psize: nat)
      requires Sound() && p in heap.h.C && psize == heap.h.C[p] && psize >= 256 && p != heap.h.top
      requires (p != heap.dv ==> p in Binned(heap.Bins())) && (p == heap.dv ==> heap.dv != 0) && segs != []
      modifies heap, heap.small, heap.tree, heap.arena`mem
      ensures heap.Holds({p}) && heap.h == old(heap.h) && segs == old(segs)
      ensures Laid(heap.arena.mem, heap.h, heap.arena.leastAddr, segs, maps, os.granted,
                   params.granularity, noncontiguous)
      ensures Kept(old(heap.arena.mem), old(Held()), heap.arena.mem, Held(), {})
    {
      hide ReuseOrder.Recorded, Core, Binned, Tame, HeadsKept, Take, Spare, MarksOk, HeapOk, LostOk, Laid, Kept, Usable;
      ghost var m, b, h, k, least := heap.arena.mem, heap.Bins(), heap.h, heap.Fields(), heap.arena.leastAddr;
      HeapBinsOk(m, b, h, k, least, {});
      if p == heap.dv {
        heap.dv := 0;
        heap.dvsize := 0;
        DvTaken(m, b, h, k, least);
        KeptSame(m, Held());
      } else {
        heap.UnlinkLargeChunk(p, psize);
        Fetched(m, heap.arena.mem, b, heap.Bins(), h, k, least, {}, p);
        assert {} + {p} == {p};
        StepAll(m, b, h, k, least, heap.arena.mem, heap.Bins(), h, k, {}, segs, maps, os.granted, params.granularity,
                noncontiguous, {}, {p});
      }
    }

    /** One segment without chunks in use: unmap it, or back out. */
    method ReleaseSegment(i: nat, p: int, psize: nat) returns (done: bool)
      requires Valid() && 1 <= i < |segs| && segs[i].mmapped && p == First(segs[i]) && p in heap.h.C
        && psize == heap.h.C[p]
      requires p !in heap.h.U && p + psize >= segs[i].End() - TOP_FOOT_SIZE
      modifies this`segs, this`footprint, heap, heap.small, heap.tree, heap.arena`mem, os
      ensures Valid() && Held() == old(Held()) && Kept(old(heap.arena.mem), old(Held()), heap.arena.mem, Held(), {})
      ensures segs == (if done then WithoutSegment(old(segs), i) else old(segs)) && (done ==> |segs| == |old(segs)| - 1)
      ensures footprint == old(footprint) - (if done then old(segs)[i].size else 0) && old(segs)[i].size > 0
      ensures Fewer(old(heap.h), heap.h)
      ensures os.calls == old(os.calls) + [MunmapCall(old(segs)[i].base, old(segs)[i].size, done)]
    {
      hide ReuseOrder.Recorded, Core, Binned, Tame, HeadsKept, Put, Spare, MarksOk, HeapOk, LostOk, Binnable, Laid,
        Kept, Usable, SegTotal, MapTotal, WithoutSegment, First, Dropped, MayDrop;
      ghost var m0, u0 := heap.arena.mem, Held();
      Unused(m0, heap.Bins(), heap.h, heap.Fields(), heap.arena.leastAddr, segs, maps, os.granted, params.granularity,
             noncontiguous, i);
      TakeUnused(p, psize);
      ghost var m, b, h, k, least := heap.arena.mem, heap.Bins(), heap.h, heap.Fields(), heap.arena.leastAddr;
      var base, size := segs[i].base, segs[i].size;
      ReleasedAll(m, b, h, k, least, segs, maps, os.granted, params.granularity, noncontiguous, i);
      done := os.Munmap(base, size);
      if done {
        footprint := footprint - size;
        WithoutLess(segs, i);
        segs := WithoutSegment(segs, i);
        DroppedFewer(h, p);
        heap.h := Dropped(h, p);
      } else {
        KeepSegment(p, psize);
        KeptOn(m0, u0, m, u0, heap.arena.mem, u0);
      }
    }

    /** A segment that could not be unmapped: its chunk goes back into its bin. */
    method KeepSegment(p: int, psize: nat)
      requires heap.Holds({p}) && p in heap.h.C && psize == heap.h.C[p] && psize >= 256 && p !in heap.h.U
        && p != heap.h.top
      requires Laid(heap.arena.mem, heap.h, heap.arena.leastAddr, segs, maps, os.granted,
                    params.granularity, noncontiguous)
      modifies heap, heap.small, heap.tree, heap.arena`mem
      ensures Sound() && Held() == old(Held()) && Kept(old(heap.arena.mem), old(Held()), heap.arena.mem, Held(), {})
        && heap.h == old(heap.h)
    {
      hide ReuseOrder.Recorded, Core, Binned, Tame, HeadsKept, Put, Spare, MarksOk, HeapOk, Binnable,
        Laid, Kept, Usable;
      ghost var m, b, h, k, least := heap.arena.mem, heap.Bins(), heap.h, heap.Fields(), heap.arena.leastAddr;
      MayBeBinned(m, b, h, k, least, {p}, p);
      heap.InsertLargeChunk(p, psize);
      Stored(m, heap.arena.mem, b, heap.Bins(), h, k, least, {p}, p);
      assert {p} - {p} == {};
      StepAll(m, b, h, k, least, heap.arena.mem, heap.Bins(), h, k, {}, segs, maps, os.granted, params.granularity,
              noncontiguous, {p}, {});
    }

    /** One turn of release_unused_segments: whether the segment i was unmapped. */
    method ReleaseIfUnused(i: nat) returns (done: bool, ghost made: seq<SysCall>)
      requires Valid() && 1 <= i < |segs|
      modifies this`segs, this`footprint, heap, heap.small, heap.tree, heap.arena`mem, os
      ensures Valid() && Held() == old(Held()) && Kept(old(heap.arena.mem), old(Held()), heap.arena.mem, Held(), {})
      ensures segs == (if done then WithoutSegment(old(segs), i) else old(segs)) && (done ==> |segs| == |old(segs)| - 1)
      ensures footprint == old(footprint) - (if done then old(segs)[i].size else 0) && (done ==> old(segs)[i].size > 0)
      ensures (done ==> IsUnused(old(heap.h), old(segs)[i])) && Fewer(old(heap.h), heap.h)
      ensures os.calls == old(os.calls) + made && First(old(segs)[i]) in old(heap.h).C
      ensures if IsUnused(old(heap.h), old(segs)[i]) then
                made == [MunmapCall(old(segs)[i].base, old(segs)[i].size, done)]
              else
                made == [] && !done
    {
      hide ReuseOrder.Recorded, Whole, HeapOk, LostOk, Laid, Kept, Usable, SegTotal, MapTotal, WithoutSegment,
        ChunkSize, IsInuse, SegsOk, SpaceOk, MapsOk;
      done, made := false, [];
      var base, size := segs[i].base, segs[i].size;
      KeptSame(heap.arena.mem, Held());
      LaidSegs(heap.arena.mem, heap.h, heap.arena.leastAddr, segs, maps, os.granted, params.granularity, noncontiguous);
      FirstChunk(heap.arena.mem, heap.Bins(), heap.h, heap.Fields(), heap.arena.leastAddr, segs, i);
      if segs[i].mmapped {
        var p := AlignAsChunk(base);
        var psize := ChunkSize(Rd(heap.arena.mem, p + 8));
        if !IsInuse(Rd(heap.arena.mem, p + 8)) && p + psize >= base + size - TOP_FOOT_SIZE {
          done := ReleaseSegment(i, p, psize);
          made := [MunmapCall(base, size, done)];
        }
      }
    }

    /** release_unused_segments: every mmapped segment without chunks in use is offered to the system, and goes if
        the system takes it; others stay. */
    method ReleaseUnusedSegments() returns (released: nat, ghost made: seq<SysCall>)
      requires Valid()
      modifies this`segs, this`footprint, this`releaseChecks, heap, heap.small, heap.tree, heap.arena`mem, os
      ensures Valid() && Held() == old(Held()) && Kept(old(heap.arena.mem), old(Held()), heap.arena.mem, Held(), {})
      ensures footprint == old(footprint) - released
      ensures OnlyUnusedGone(old(heap.h), old(segs), segs)
      ensures os.calls == old(os.calls) + made && AllOffered(old(heap.h), old(segs), segs, made)
    {
      hide ReuseOrder.Recorded, Whole, HeapOk, LostOk, Laid, Kept, Usable, SegTotal, MapTotal, WithoutSegment,
        IsUnused, OnlyUnusedGone, Offering, Fewer, AllOffered, First, Differ;
      ghost var m0, u0, h0, segs0, c0 := heap.arena.mem, Held(), heap.h, segs, os.calls;
      KeptSame(m0, u0);
      released, made := 0, [];
      var nsegs, i := 0, 1;
      SegmentsDiffer(m0, heap.Bins(), h0, heap.Fields(), heap.arena.leastAddr, segs, maps, os.granted,
                     params.granularity, noncontiguous);
      StartOffers(h0, segs0);
      while i < |segs|
        invariant 1 <= i && Valid() && Held() == u0 && Kept(m0, u0, heap.arena.mem, u0, {})
          && footprint == old(footprint) - released
        invariant OnlyUnusedGone(h0, segs0, segs) && Fewer(h0, heap.h)
        invariant os.calls == c0 + made && Offering(h0, segs0, segs, i, made)
        decreases |segs| - i
      {
        ghost var m, h, segs1 := heap.arena.mem, heap.h, segs;
        var size := segs[i].size;
        nsegs := nsegs + 1;
        SegmentsDiffer(m, heap.Bins(), h, heap.Fields(), heap.arena.leastAddr, segs, maps, os.granted,
                       params.granularity, noncontiguous);
        var done;
        ghost var more;
        done, more := ReleaseIfUnused(i);
        ReleasedOne(h0, segs0, h, segs1, heap.h, i, done, made, more);
        Joined(c0, made, more);
        made := made + more;
        if done {
          released := released + size;
        } else {
          i := i + 1;
        }
        KeptOn(m0, u0, m, u0, heap.arena.mem, u0);
      }
      NoneLeft(h0, segs0, segs, i, made);
      releaseChecks := if nsegs > MAX_RELEASE_CHECK_RATE then nsegs else MAX_RELEASE_CHECK_RATE;
    }

    /** has_segment_link */
    method HasSegmentLink(i: nat) returns (linked: bool)
      requires i < |segs|
      ensures linked == Pinned(segs, i)
    {
      var j := 0;
      linked := false;
      while j < |segs|
        invariant 0 <= j <= |segs| && !linked && forall x | 0 <= x < j :: !SegHolds(segs[i], segs[x].at)
      {
        if SegHolds(segs[i], segs[j].at) { return true; }
        j := j + 1;
      }
    }

    /** The calls of the system in sys_trim: how much was given back at the end of the segment of top. */
    method GiveBack(extra: nat) returns (released: nat, ghost made: seq<SysCall>)
      requires Valid() && segs != [] && extra % 16 == 0 && extra < segs[0].size
      modifies os, heap.arena`mem
      ensures heap.arena.mem == old(heap.arena.mem) && os.Ok()
      ensures released == extra || released == 0
      ensures os.calls == old(os.calls) + made && GaveBack(segs[0], extra, made, released)
      ensures forall a | a in old(os.granted) && !(segs[0].End() - released <= a < segs[0].End()) :: a in os.granted
    {
      hide ReuseOrder.Recorded, Whole, HeapOk, LostOk, Laid, SegTotal, MapTotal, Pinned, GaveBack;
      released, made := 0, [];
      var base, size := segs[0].base, segs[0].size;
      ghost var g0, c0 := os.granted, os.calls;
      if segs[0].mmapped {
        var pinned := HasSegmentLink(0);
        NeverPinned(heap.arena.mem, heap.Bins(), heap.h, heap.Fields(), heap.arena.leastAddr, segs, maps, os.granted,
                    params.granularity, noncontiguous);
        assert !pinned;
        if size >= extra && !pinned {
          var newsize := size - extra;
          var r := os.Mremap(heap.arena, base, size, newsize, false);
          made := [MremapCall(base, size, newsize, false, r)];
          if r != FAIL {
            released := extra;
            RemapGave(segs[0], extra, r);
            RemapKeeps(g0, base, size, newsize);
          } else {
            var ok := os.Munmap(base + newsize, extra);
            made := made + [MunmapCall(base + newsize, extra, ok)];
            UnmapGave(segs[0], extra, ok);
            if ok {
              released := extra;
              UnmapKeeps(g0, base + newsize, extra);
            }
          }
        }
      } else {
        var n: int := if extra >= HALF_MAX_SIZE_T then HALF_MAX_SIZE_T + 1 - params.granularity else extra;
        TrimIsSmall(heap.arena.mem, heap.h, heap.arena.leastAddr, segs, maps, os.granted,
                    params.granularity, noncontiguous);
        var oldBr := os.Morecore(0);
        made := [SbrkCall(0, oldBr)];
        if oldBr == base + size {
          var relBr := os.Morecore(-n);
          var newBr := os.Morecore(0);
          made := made + [SbrkCall(-n, relBr), SbrkCall(0, newBr)];
          BreakGave(segs[0], extra, relBr, newBr);
          if relBr != FAIL && newBr != FAIL && newBr < oldBr {
            released := oldBr - newBr;
            UnmapKeeps(g0, base + size - extra, extra);
          }
        } else {
          BreakMoved(segs[0], extra, oldBr);
        }
      }
    }

    /** sys_trim, after the end of the segment of top was given back. */
    method ShrinkTop(released: nat, ghost g0: set<int>)
      requires heap.Valid() && Laid(heap.arena.mem, heap.h, heap.arena.leastAddr, segs, maps, g0,
                                    params.granularity, noncontiguous)
      requires footprint == SegTotal(segs) + MapTotal(maps) && footprint <= maxFootprint && LostOk(lost, maps)
        && segs != [] && os.Ok()
      requires 0 <= footprintLimit < WORD
      requires released % 16 == 0 && released + TOP_FOOT_SIZE < heap.topsize
        && (segs[0].mmapped ==> Whole(released, params.granularity))
      requires forall a | a in g0 && !(segs[0].End() - released <= a < segs[0].End()) :: a in os.granted
      modifies this`segs, this`footprint, this`trimCheck, heap`top, heap`topsize, heap`h, heap.arena`mem
      ensures Valid() && Held() == old(Held()) && Kept(old(heap.arena.mem), old(Held()), heap.arena.mem, Held(), {})
      ensures footprint == old(footprint) - released
      ensures OthersStay(old(heap.h), old(segs), heap.h, segs) && segs[0].size == old(segs)[0].size - released
    {
      hide ReuseOrder.Recorded, Whole, HeapOk, LostOk, Laid, Kept, Usable, SegTotal, MapTotal, SegsOk,
        InitTop, WithPinuse, AlignAsChunk, First, OthersStay;
      ghost var m, b, h, k, least := heap.arena.mem, heap.Bins(), heap.h, heap.Fields(), heap.arena.leastAddr;
      TopAligned(m, b, h, k, least, segs, maps, g0, params.granularity, noncontiguous);
      AlignsUp(h.top);
      TopSize(m, b, h, k, least, {});
      TrimAll(m, b, h, k, least, segs, maps, g0, os.granted, params.granularity, noncontiguous, released);
      OthersStand(m, b, h, k, least, segs, maps, g0, params.granularity, noncontiguous, segs[0].size - released,
                  h.top + k.topsize - released);
      heap.h := MovedEnd(h, First(segs[0]), h.top + k.topsize - released);
      segs := Resized(segs, 0, segs[0].base, segs[0].size - released);
      footprint := footprint - released;
      LessSixteens(k.topsize, released);
      InitTopChunk(heap.top, heap.topsize - released);
    }

    /** sys_trim, on the segment of top. */
    method TrimTop(pad: nat) returns (released: nat, ghost extra: nat, ghost made: seq<SysCall>)
      requires Valid() && segs != [] && pad >= TOP_FOOT_SIZE && heap.topsize > pad
      modifies this`segs, this`footprint, this`trimCheck, heap`top, heap`topsize, heap`h, heap.arena`mem, os
      ensures Valid() && Held() == old(Held()) && Kept(old(heap.arena.mem), old(Held()), heap.arena.mem, Held(), {})
      ensures footprint == old(footprint) - released && os.calls == old(os.calls) + made
      ensures segs != [] && OthersStay(old(heap.h), old(segs), heap.h, segs)
        && MostUnits(old(heap.topsize), pad, params.granularity, extra)
        && GaveBack(old(segs)[0], extra, made, old(segs)[0].size - segs[0].size)
    {
      hide ReuseOrder.Recorded, Whole, HeapOk, LostOk, Laid, Kept, Usable, SegTotal, MapTotal, SegsOk, Pinned, Extra,
        GaveBack, OthersStay, MostUnits;
      ghost var g0 := os.granted;
      var unit := params.granularity;
      var units := Extra(heap.topsize, pad, unit);
      ExtraUnits(heap.topsize, pad, unit);
      extra := units;
      NothingStands(heap.h, segs);
      TopAligned(heap.arena.mem, heap.Bins(), heap.h, heap.Fields(), heap.arena.leastAddr, segs, maps, g0,
                 unit, noncontiguous);
      KeptSame(heap.arena.mem, Held());
      var i := SegmentHolding(heap.top);
      assert i == 0 by { assert SegHolds(segs[0], heap.top); }
      released, made := GiveBack(units);
      if released != 0 {
        ghost var h0, segs0 := heap.h, segs;
        ShrinkTop(released, g0);
        StaySame(h0, segs0, heap.h, segs);
      } else {
        NothingGone(g0, os.granted, segs[0].End());
        StillLaid(heap.arena.mem, heap.h, heap.arena.leastAddr, segs, maps, g0, os.granted, unit,
                  noncontiguous, noncontiguous);
      }
    }

    /** sys_trim */
    method SysTrim(pad0: nat) returns (trimmed: bool)
      requires Valid()
      modifies this`segs, this`footprint, this`trimCheck, this`releaseChecks, heap, heap.small, heap.tree,
        heap.arena`mem, os
      ensures Valid() && Held() == old(Held()) && Kept(old(heap.arena.mem), old(Held()), heap.arena.mem, Held(), {})
      ensures footprint <= old(footprint) && (trimmed <==> footprint < old(footprint))
      ensures pad0 < MAX_REQUEST && !trimmed ==> heap.topsize <= trimCheck
      ensures old(os.calls) <= os.calls
      ensures if pad0 < MAX_REQUEST && old(heap.top) != 0 then
                TriedTrim(old(heap.h), old(segs), old(heap.topsize), pad0 + TOP_FOOT_SIZE, params.granularity, segs,
                          os.calls[|old(os.calls)|..])
              else
                os.calls == old(os.calls)
    {
      hide ReuseOrder.Recorded, Whole, HeapOk, LostOk, Laid, Kept, Usable, SegTotal, MapTotal, SegsOk, TriedTrim,
        GaveBack, MostUnits, OthersStay, AllOffered, OnlyUnusedGone, LostOk;
      ghost var m0, u0, h0, segs0, t0, c0 := heap.arena.mem, Held(), heap.h, segs, heap.topsize, os.calls;
      KeptSame(m0, u0);
      var released := 0;
      if pad0 < MAX_REQUEST && heap.top != 0 {
        HasSegments(m0, heap.Bins(), heap.h, heap.Fields(), heap.arena.leastAddr, segs, maps, os.granted,
                    params.granularity, noncontiguous);
        var pad := pad0 + TOP_FOOT_SIZE;
        ghost var extra, made, rest := 0, [], [];
        NothingStands(h0, segs0);
        if heap.topsize > pad {
          released, extra, made := TrimTop(pad);
        }
        ghost var m1, h1, segs1 := heap.arena.mem, heap.h, segs;
        var more;
        more, rest := ReleaseUnusedSegments();
        Tried(h0, segs0, h1, segs1, t0, pad, params.granularity, segs, extra, made, rest);
        Joined(c0, made, rest);
        Since(c0, made + rest);
        released := released + more;
        KeptOn(m0, u0, m1, u0, heap.arena.mem, u0);
        if released == 0 && heap.topsize > trimCheck {
          trimCheck := MAX_SIZE_T;
        }
      }
      trimmed := released != 0;
      TopSize(heap.arena.mem, heap.Bins(), heap.h, heap.Fields(), heap.arena.leastAddr, {});
    }

    // -------------------------------------------------------------------------------------
    // The entry points

    /** dlmalloc */
    method Malloc(bytes: nat) returns (mem: int)
      requires Valid() && bytes < WORD
      modifies this`segs, this`trimCheck, this`releaseChecks, this`footprint, this`maxFootprint,
        this`noncontiguous, this`maps, heap, heap.small, heap.tree, heap.arena, os
      ensures (Valid() <==> heap.topsize % 8 == 0) && (os.tidy ==> heap.topsize % 8 == 0)
      ensures heap.topsize % 8 != 0 ==> segs != [] && Misread(heap.arena.mem, heap.top, heap.topsize, segs[0].End())
      ensures old(os.calls) <= os.calls
        && (os.calls != old(os.calls) ==> HeapModel.NoneFits(old(heap.h), SizeFor(bytes)))
      ensures mem == 0 ==>
        && heap.topsize % 8 == 0 && Owner() == old(Owner()) && footprint == old(footprint)
        && RefusesRequest(old(heap.h), old(Now()), bytes, os.calls[|old(os.calls)|..])
      ensures mem != 0 && heap.topsize % 8 == 0 ==>
        && bytes < MAX_REQUEST && Gained(old(Owner()), Owner(), mem - 16, SizeFor(bytes)) && bytes <= Owner()[mem - 16]
        && (mem - 16 in maps || Owner()[mem - 16] < SizeFor(bytes) + 24)
      ensures heap.topsize % 8 == 0 ==> Kept(old(heap.arena.mem), old(Owner()), heap.arena.mem, Owner(), {})
      ensures footprintLimit == 0 || footprint <= footprintLimit || footprint == old(footprint)
    {
      hide ReuseOrder.Recorded, Whole, HeapOk, LostOk, Laid, Kept, Usable, SegTotal, MapTotal, SizeFor,
        HeapModel.ServesSmall, HeapModel.ServesLarge, Served, Gained, Misread,
        HeapModel.NoneFits, Refuses, OwnMapping, NotMappedFirst;
      ghost var m, b, h, k, least, u0 := heap.arena.mem, heap.Bins(), heap.h, heap.Fields(),
        heap.arena.leastAddr, Held();
      LostInUse(h, maps, lost);
      var nb;
      mem, nb := heap.Malloc(bytes);
      SizeForKinds(bytes);
      TopSize(heap.arena.mem, heap.Bins(), heap.h, heap.Fields(), heap.arena.leastAddr, {});
      if mem != 0 {
        ServedAll(m, b, h, k, least, heap.arena.mem, heap.Bins(), heap.h, heap.Fields(), segs, maps, os.granted,
                  params.granularity, noncontiguous, mem - 16, nb);
      } else {
        mem := SysAlloc(nb);
      }
      if heap.topsize % 8 == 0 {
        OwnKept(m, u0, heap.arena.mem, Held(), {}, lost);
        if mem != 0 {
          OwnGained(u0, Held(), lost, mem - 16, nb);
          GainedFits(old(Owner()), Owner(), mem - 16, bytes);
        }
      }
    }

    /** The case of a mapped chunk in dlfree and dispose_chunk. */
    method UnmapChunk(p: int)
      requires Valid() && p in maps && p !in lost
      modifies this`maps, this`lost, this`footprint, os
      ensures Valid() && Owner() == old(Owner()) - {p}
        && Kept(heap.arena.mem, old(Owner()), heap.arena.mem, Owner(), {p})
      ensures footprint <= old(footprint)
      ensures os.calls == old(os.calls) + [MunmapCall(old(maps)[p].base, old(maps)[p].size, p !in lost)]
    {
      hide ReuseOrder.Recorded, Whole, HeapOk, Laid, Kept, Usable, SegTotal, MapTotal, ChunkSize, IsInuse, IsMmapped,
        Pinuse;
      ghost var m, b, h, k, least, u0 := heap.arena.mem, heap.Bins(), heap.h, heap.Fields(),
        heap.arena.leastAddr, Held();
      MappedTags(m, segs, maps, p,
                 least) by { LaidSegs(m, h, least, segs, maps, os.granted, params.granularity, noncontiguous); }
      MappedSize(m, h, least, segs, maps, os.granted, params.granularity, noncontiguous, p);
      UnmappedAll(m, b, h, k, least, segs, maps, os.granted, params.granularity, noncontiguous, lost, p);
      OwnKept(m, u0, m, Usable(h, maps - {p}), {p}, lost);
      OwnLess(u0, Usable(h, maps - {p}), lost, p);
      OwnLost(u0, lost, p);
      var psize := ChunkSize(Rd(heap.arena.mem, p + 8));
      var prevsize := Rd(heap.arena.mem, p);
      psize := psize + (prevsize + MMAP_FOOT_PAD);
      var ok := os.Munmap(p - prevsize, psize);
      if ok {
        footprint := footprint - psize;
        maps := maps - {p};
      } else {
        lost := lost + {p};
      }
    }

    /** dispose_chunk, and dlfree up to trimming, for any chunk of the program. */
    method Dispose(p: int, inFree: bool) returns (after: Heap.Aftermath)
      requires Valid() && p in Owner()
      modifies this`maps, this`lost, this`footprint, heap, heap.small, heap.tree, heap.arena`mem, os
      ensures Valid() && Owner() == old(Owner()) - {p}
        && Kept(old(heap.arena.mem), old(Owner()), heap.arena.mem, Owner(), {p})
      ensures footprint <= old(footprint) && FreesEntry(old(heap.State()), p, heap.State())
      ensures p in old(maps) ==>
        && after.Quiet? && p !in old(heap.h).C
        && os.calls == old(os.calls) + [MunmapCall(old(maps)[p].base, old(maps)[p].size, p !in lost)]
      ensures p !in old(maps) ==>
        && p in old(heap.h).C && os.calls == old(os.calls)
        && (after.TopGrew? <==> HeapModel.GrowsTop(old(heap.State()), p))
        && (after.LargeBinned? <==> HeapModel.BinsLarge(old(heap.State()), p))
        && (after.TopGrew? ==> after.tsize == heap.topsize && segs != [])
    {
      hide ReuseOrder.Recorded, Whole, HeapOk, LostOk, Laid, Kept, Usable, SegTotal, MapTotal, ChunkSize, IsInuse,
        IsMmapped, Pinuse, HeapModel.Freed, Tame, UsedMap, HeapModel.GrowsTop, HeapModel.BinsLarge;
      ghost var m, b, h, k, least, u0 := heap.arena.mem, heap.Bins(), heap.h, heap.Fields(),
        heap.arena.leastAddr, Held();
      KindOf(m, b, h, k, least, segs, maps, os.granted, params.granularity, noncontiguous, lost, p);
      if IsMmapped(Rd(heap.arena.mem, p + 8)) {
        MappedNoChunk(m, b, h, k, least, segs, maps, os.granted, params.granularity, noncontiguous, p);
        UnmapChunk(p);
        after := Heap.Quiet;
      } else {
        var psize := ChunkSize(Rd(heap.arena.mem, p + 8));
        if HeapModel.GrowsTop(heap.State(), p) {
          TopStands(m, b, heap.State(), least, segs, maps, os.granted, params.granularity, noncontiguous, p);
        }
        after := heap.DisposeChunk(p, psize, inFree);
        FreedAll(m, b, h, k, least, heap.arena.mem, heap.Bins(), heap.h, heap.Fields(), segs, maps, os.granted,
                 params.granularity, noncontiguous, p);
        OwnKept(m, u0, heap.arena.mem, Held(), {p}, lost);
        OwnLess(u0, Held(), lost, p);
      }
    }

    /** The end of dlfree: memory may go back to the system. */
    method Tidy(after: Heap.Aftermath) returns (ghost made: seq<SysCall>)
      requires Valid() && (after.TopGrew? ==> after.tsize == heap.topsize && segs != [])
      modifies this`segs, this`trimCheck, this`releaseChecks, this`footprint, heap, heap.small, heap.tree,
        heap.arena`mem, os
      ensures Valid() && Held() == old(Held()) && Kept(old(heap.arena.mem), old(Held()), heap.arena.mem, Held(), {})
      ensures footprint <= old(footprint) && os.calls == old(os.calls) + made
      ensures match after
        case TopGrew(tsize) =>
          if tsize > old(trimCheck) then
            TriedTrim(old(heap.h), old(segs), tsize, TOP_FOOT_SIZE, params.granularity, segs, made)
          else made == []
        case LargeBinned =>
          if Wrap(old(releaseChecks) - 1) == 0 then AllOffered(old(heap.h), old(segs), segs, made) else made == []
        case Quiet => made == []
    {
      hide ReuseOrder.Recorded, Whole, HeapOk, LostOk, Laid, Kept, Usable, SegTotal, MapTotal, TriedTrim, AllOffered;
      KeptSame(heap.arena.mem, Held());
      made := [];
      match after {
        case TopGrew(tsize) =>
          if tsize > trimCheck {
            ghost var c0 := os.calls;
            TopAligned(heap.arena.mem, heap.Bins(), heap.h, heap.Fields(), heap.arena.leastAddr, segs, maps, os.granted,
                       params.granularity, noncontiguous);
            var trimmed := SysTrim(0);
            made := os.calls[|c0|..];
          }
        case LargeBinned =>
          releaseChecks := Wrap(releaseChecks - 1);
          if releaseChecks == 0 {
            var released;
            released, made := ReleaseUnusedSegments();
          }
        case Quiet =>
      }
    }

    /** dlfree.  A chunk of the program goes; the allocator may then give memory back to the system. */
    method Free(mem: int)
      requires Valid() && (mem == 0 || mem - 16 in Owner())
      modifies this`segs, this`trimCheck, this`releaseChecks, this`footprint, this`maps, this`lost,
        heap, heap.small, heap.tree, heap.arena`mem, os
      ensures Valid() && footprint <= old(footprint)
      ensures mem == 0 ==> Owner() == old(Owner()) && heap.arena.mem == old(heap.arena.mem)
      ensures mem != 0 ==> Owner() == old(Owner()) - {mem - 16}
      ensures Kept(old(heap.arena.mem), old(Owner()), heap.arena.mem, Owner(), {mem - 16})
      ensures old(os.calls) <= os.calls && GivesBack(old(heap.State()), old(maps), mem, old(segs), old(trimCheck),
                                                    old(releaseChecks), params.granularity, segs, lost,
                                                    os.calls[|old(os.calls)|..])
    {
      hide ReuseOrder.Recorded, Whole, HeapOk, LostOk, Laid, Usable, SegTotal, MapTotal, IsInuse, TriedTrim, AllOffered,
        HeapModel.GrowsTop, HeapModel.BinsLarge, FreesEntry;
      if mem != 0 {
        var p := mem - 16;
        KindOf(heap.arena.mem, heap.Bins(), heap.h, heap.Fields(), heap.arena.leastAddr, segs, maps, os.granted,
               params.granularity, noncontiguous, lost, p);
        if p >= heap.arena.leastAddr && IsInuse(Rd(heap.arena.mem, p + 8)) {
          ghost var m0, u0, w0, maps0 := heap.arena.mem, Owner(), heap.State(), maps;
          ghost var segs0, trimCheck0, checks0 := segs, trimCheck, releaseChecks;
          var after := Dispose(p, true);
          ghost var m1, u1 := heap.arena.mem, Held();
          ghost var w1, c1 := heap.State(), os.calls;
          ghost var made := Tidy(after);
          Since(c1, made);
          if p !in maps0 {
            GivenBack(w0, maps0, p, w1, after, segs0, trimCheck0, checks0, params.granularity, segs, lost, made);
          }
          OwnKept(m1, u1, heap.arena.mem, Held(), {}, lost);
          KeptAfter(m0, u0, m1, u1 - lost, heap.arena.mem, Owner(), {p});
        } else {
          assert false;  // USAGE_ERROR_ACTION
        }
      } else {
      }
    }

    // -------------------------------------------------------------------------------------
    // realloc

    /** mmap_resize, after MREMAP: the head moves to cp + offset.  If there is no room behind the offset, the
        chunk that is returned is too small, and its tags are not those of a chunk in the mapping. */
    method AfterRemap(oldp: int, cp: int, offset: int, oldmmsize: nat, newmmsize: nat, nb: nat, ghost m0: Mem,
                      ghost g0: set<int>)
      returns (newp: int)
      requires heap.Linked() && HeapOk(m0, heap.Bins(), heap.h, heap.Fields(), heap.arena.leastAddr, {})
      requires Laid(m0, heap.h, heap.arena.leastAddr, segs, maps, g0, params.granularity, noncontiguous)
      requires footprint == SegTotal(segs) + MapTotal(maps) && footprint <= maxFootprint
        && LostOk(lost, maps) && os.Ok()
      requires oldp in maps && oldp !in lost && offset == oldp - maps[oldp].base && oldmmsize == maps[oldp].size
      requires New(g0 - Bytes(maps[oldp].base, maps[oldp].size), cp, newmmsize)
        && Remapped(m0, heap.arena.mem, maps[oldp], cp, newmmsize)
      requires os.granted == g0 - Bytes(maps[oldp].base, maps[oldp].size) + Bytes(cp, newmmsize)
      requires 0 <= footprintLimit < WORD
      requires cp % 16 == 0 && newmmsize % 16 == 0 && nb >= MIN_CHUNK_SIZE && nb % 16 == 0
        && newmmsize == MapSize(nb, params.page) >= 32
      modifies this`maps, this`footprint, this`maxFootprint, heap.arena
      ensures newp == cp + offset && newp > 0 && footprint == old(footprint) + newmmsize - oldmmsize
      ensures offset + nb + 8 + MMAP_FOOT_PAD <= newmmsize ==>
        Valid() && Moved(m0, old(Owner()), heap.arena.mem, Owner(), oldp, newp, nb - 8)
      ensures newmmsize < offset + nb + 8 + MMAP_FOOT_PAD ==>
        Misplaced(m0, g0, oldp, old(maps)[oldp], heap.arena.mem, os.granted, newp, nb, params.page)
    {
      hide ReuseOrder.Recorded, Whole, HeapOk, LostOk, Laid, Kept, Usable, SegTotal, MapTotal, New, Bytes,
        Moved, Remapped, ResizeTags, OwnedMap, MapSize, Misplaced;
      ghost var m1, b, h, k, least, u0 := heap.arena.mem, heap.Bins(), heap.h, heap.Fields(),
        heap.arena.leastAddr, Held();
      NewPlace(g0 - Bytes(maps[oldp].base, maps[oldp].size), cp, newmmsize);
      OffsetNat(m0, h, least, segs, maps, g0, params.granularity, noncontiguous, oldp);
      newp := cp + offset;
      var psize := newmmsize - offset - MMAP_FOOT_PAD;
      heap.arena.mem := ResizeTags(heap.arena.mem, newp, psize);
      if cp < heap.arena.leastAddr {
        heap.arena.leastAddr := cp;
      }
      Count(newmmsize - oldmmsize);
      if offset + nb + 8 + MMAP_FOOT_PAD <= newmmsize {
        RemapAll(m0, m1, b, h, k, least, segs, maps, g0, params.granularity, noncontiguous, oldp, cp, newmmsize, nb,
                 heap.arena.leastAddr);
        ghost var maps1 := (maps - {oldp})[newp := Mapping(cp, newmmsize)];
        RemapLost(m0, m1, b, h, k, least, segs, maps, g0, params.granularity, noncontiguous, lost, heap.arena.mem,
                  maps1, oldp, cp, newmmsize, nb);
        maps := maps1;
      } else {
        Misplaces(m0, m1, g0, oldp, maps[oldp], cp, nb, params.page);
      }
    }

    /** mmap_resize */
    method MmapResize(oldp: int, nb: nat, mayMove: bool) returns (newp: int, ghost made: seq<SysCall>)
      requires Valid() && oldp in Owner() && oldp in maps && nb % 16 == 0 && MIN_CHUNK_SIZE <= nb < WORD
      modifies this`maps, this`footprint, this`maxFootprint, heap.arena, os
      ensures newp == 0 ==>
        Valid() && Owner() == old(Owner()) && heap.arena.mem == old(heap.arena.mem) && footprint == old(footprint)
      ensures newp != 0 && old(MayResize(oldp, nb)) ==>
        Valid() && Moved(old(heap.arena.mem), old(Owner()), heap.arena.mem, Owner(), oldp, newp, nb - 8)
      ensures newp != 0 && !old(MayResize(oldp, nb)) ==>
        && Misplaced(old(heap.arena.mem), old(os.granted), oldp, old(maps)[oldp], heap.arena.mem, os.granted, newp,
                     nb, params.page)
        && footprint == old(footprint) + MapSize(nb, params.page) - old(maps)[oldp].size
      ensures newp >= 0 && (newp != 0 ==> mayMove || newp == oldp)
      ensures os.calls == old(os.calls) + made && MapTried(old(maps)[oldp], oldp, nb, params, mayMove, newp, made)
    {
      hide ReuseOrder.Recorded, Whole, HeapOk, LostOk, Laid, Kept, Usable, SegTotal, MapTotal, New, Bytes, Moved,
        ResizeTags, MapSize, ChunkSize, IsInuse, IsMmapped, Pinuse, Copied, Misplaced;
      ghost var m, b, h, k, least, g0 := heap.arena.mem, heap.Bins(), heap.h, heap.Fields(),
        heap.arena.leastAddr, os.granted;
      KindOf(m, b, h, k, least, segs, maps, g0, params.granularity, noncontiguous, lost, oldp);
      MappedTags(m, segs, maps, oldp,
                 least) by { LaidSegs(m, h, least, segs, maps, g0, params.granularity, noncontiguous); }
      MappedSize(m, h, least, segs, maps, g0, params.granularity, noncontiguous, oldp);
      newp, made := 0, [];
      var oldsize := ChunkSize(Rd(heap.arena.mem, oldp + 8));
      if IsSmall(nb) { return; }
      if oldsize >= nb + 8 && oldsize - nb <= 2 * params.granularity {
        NotMoved(m, Owner(), oldp, nb - 8) by { OwnSize(Held(), lost, oldp); }
        return oldp, [];
      }
      var offset := Rd(heap.arena.mem, oldp);
      var oldmmsize := oldsize + offset + MMAP_FOOT_PAD;
      var newmmsize := MapSize(nb, params.page);
      MapSizeOf16(nb, params.page);
      var cp := os.Mremap(heap.arena, oldp - offset, oldmmsize, newmmsize, mayMove);
      made := [MremapCall(oldp - offset, oldmmsize, newmmsize, mayMove, cp)];
      if cp != FAIL {
        newp := AfterRemap(oldp, cp, offset, oldmmsize, newmmsize, nb, m, g0);
      }
    }

    /** What a caller of realloc can know beforehand: that mmap_resize will have room behind the offset of a
        mapped chunk. */
    ghost predicate MayResize(p: int, nb: nat)
      reads this
    {
      p in maps ==> MayRemap(maps[p].ChunkBytes(p), p - maps[p].base, nb, params)
    }

    /** try_realloc_chunk, for a chunk of the heap. */
    method ResizeInHeap(p: int, nb: nat) returns (newp: int)
      requires Valid() && p in Owner() && p !in maps && nb % 16 == 0 && MIN_CHUNK_SIZE <= nb < WORD
      modifies heap, heap.small, heap.tree, heap.arena`mem
      ensures Valid() && (newp == p || newp == 0) && p != 0 && heap.topsize % 8 == 0
        && HeapModel.Resizes(old(heap.State()), p, nb, heap.State(), newp != 0)
      ensures newp == 0 ==>
        Owner() == old(Owner()) && heap.arena.mem == old(heap.arena.mem) && heap.State() == old(heap.State())
      ensures newp != 0 ==> Moved(old(heap.arena.mem), old(Owner()), heap.arena.mem, Owner(), p, newp, nb - 8)
      ensures Owned(old(heap.h), p) && (newp != 0 <==> HeapModel.CanGrow(old(heap.h), p, nb))
    {
      hide ReuseOrder.Recorded, Whole, HeapOk, LostOk, Laid, Kept, Usable, SegTotal, MapTotal, Moved,
        ChunkSize, IsInuse, IsMmapped, Tame, HeapModel.Resizes, Resizing.Preserved, Owned, UsedMap, HeapModel.CanGrow;
      ghost var m, b, h, k, least, u0, w := heap.arena.mem, heap.Bins(), heap.h, heap.Fields(),
        heap.arena.leastAddr, Held(), heap.State();
      KindOf(m, b, h, k, least, segs, maps, os.granted, params.granularity, noncontiguous, lost, p);
      newp := heap.TryRealloc(p, nb);
      ResizesWhen(m, b, w, least, p, nb, heap.State(), newp != 0);
      TopSize(heap.arena.mem, heap.Bins(), heap.h, heap.Fields(), heap.arena.leastAddr, {});
      if newp != 0 {
        OwnedIs(h, p);
        OwnedIs(heap.h, p);
        ResizedAll(m, b, h, k, least, heap.arena.mem, heap.Bins(), heap.h, heap.Fields(), segs, maps, os.granted,
                   params.granularity, noncontiguous, p, p);
        ResizedMoved(m, h, maps, heap.arena.mem, heap.h, p, nb);
        LostInUse(h, maps, lost);
        MovedOwn(m, u0, heap.arena.mem, Held(), p, p, nb - 8, lost);
      }
    }

    /** try_realloc_chunk */
    method TryReallocChunk(p: int, nb: nat, canMove: bool) returns (newp: int, ghost made: seq<SysCall>)
      requires Valid() && p in Owner() && nb % 16 == 0 && MIN_CHUNK_SIZE <= nb < WORD
      modifies this`maps, this`footprint, this`maxFootprint, heap, heap.small, heap.tree, heap.arena, os
      ensures heap.topsize % 8 == 0
      ensures newp == 0 ==>
        Valid() && Owner() == old(Owner()) && heap.arena.mem == old(heap.arena.mem) && footprint == old(footprint)
      ensures newp != 0 && old(MayResize(p, nb)) ==>
        Valid() && Moved(old(heap.arena.mem), old(Owner()), heap.arena.mem, Owner(), p, newp, nb - 8)
      ensures newp != 0 && !old(MayResize(p, nb)) ==>
        MapMisplaced(old(heap.arena.mem), old(os.granted), old(maps), heap.arena.mem, os.granted, p, newp, nb, params)
      ensures newp >= 0 && (newp != 0 ==> canMove || newp == p)
      ensures os.calls == old(os.calls) + made
      ensures newp == 0 ==> heap.h == old(heap.h) && Now() == old(Now())
      ensures Tries(old(heap.h), old(maps), params, p, nb, canMove, newp, made)
      ensures ResizesChunk(old(heap.State()), old(maps), p, nb, heap.State(), newp != 0)
    {
      hide ReuseOrder.Recorded, Whole, HeapOk, LostOk, Laid, Kept, Usable, SegTotal, MapTotal, Moved, MapSize,
        HeapModel.CanGrow, MapTried,
        ChunkSize, IsInuse, IsMmapped, Tame, HeapModel.Resizes, Resizing.Preserved, Owned, Misplaced, MayRemap, UsedMap;
      ghost var m, b, h, k, least, u0 := heap.arena.mem, heap.Bins(), heap.h, heap.Fields(),
        heap.arena.leastAddr, Held();
      KindOf(m, b, h, k, least, segs, maps, os.granted, params.granularity, noncontiguous, lost, p);
      TopSize(m, b, h, k, least, {});
      newp, made := 0, [];
      var next := p + ChunkSize(Rd(heap.arena.mem, p + 8));
      if p >= heap.arena.leastAddr && IsInuse(Rd(heap.arena.mem, p + 8)) && p < next
         && Pinuse(Rd(heap.arena.mem, next + 8)) {
        if IsMmapped(Rd(heap.arena.mem, p + 8)) {
          newp, made := MmapResize(p, nb, canMove);
        } else {
          newp := ResizeInHeap(p, nb);
        }
      } else {
        assert false;  // USAGE_ERROR_ACTION
      }
    }

    /** memcpy from one chunk of the program to another. */
    method CopyPayload(p: int, q: int, n: nat)
      requires Valid() && p in Owner() && q in Owner() && p != q && n <= Owner()[p] && n <= Owner()[q]
      modifies heap.arena`mem
      ensures Valid() && Kept(old(heap.arena.mem), Owner(), heap.arena.mem, Owner(), {q})
      ensures SameBytes(old(heap.arena.mem), p, heap.arena.mem, q, n)
    {
      hide ReuseOrder.Recorded, Whole, HeapOk, LostOk, Laid, Kept, Usable, SegTotal, MapTotal;
      ghost var m, b, h, k, least := heap.arena.mem, heap.Bins(), heap.h, heap.Fields(), heap.arena.leastAddr;
      OwnSize(Held(), lost, p);
      OwnSize(Held(), lost, q);
      ApartCopies(m, b, h, k, least, segs, maps, os.granted, params.granularity, noncontiguous, p, q, n);
      heap.arena.Copy(p + 16, q + 16, n);
      WrittenAll(m, heap.arena.mem, b, h, k, least, segs, maps, os.granted, params.granularity, noncontiguous, lost, q);
      OwnKept(m, Held(), heap.arena.mem, Held(), {q}, lost);
    }

    /** Between two calls a program may write to its payloads. */
    method Store(p: int, a: int, v: int)
      requires Valid() && Payload(Owner(), p, a)
      modifies heap.arena`mem
      ensures Valid() && heap.arena.mem == old(heap.arena.mem)[a := v]
        && Kept(old(heap.arena.mem), Owner(), heap.arena.mem, Owner(), {p})
    {
      hide ReuseOrder.Recorded, Whole, HeapOk, LostOk, Laid, Kept, Usable, SegTotal, MapTotal;
      ghost var m, b, h, k, least := heap.arena.mem, heap.Bins(), heap.h, heap.Fields(), heap.arena.leastAddr;
      OwnSize(Held(), lost, p);
      heap.arena.mem := heap.arena.mem[a := v];
      WrittenAll(m, heap.arena.mem, b, h, k, least, segs, maps, os.granted, params.granularity, noncontiguous, lost, p);
      OwnKept(m, Held(), heap.arena.mem, Held(), {p}, lost);
    }

    /** dlrealloc, when the chunk cannot grow where it is: malloc, memcpy, free. */
    method MoveChunk(oldmem: int, bytes: nat) returns (mem: int)
      requires Valid() && oldmem - 16 in Owner() && bytes < MAX_REQUEST
      modifies this`segs, this`trimCheck, this`releaseChecks, this`footprint, this`maxFootprint, this`noncontiguous,
        this`maps, this`lost, heap, heap.small, heap.tree, heap.arena, os
      ensures (heap.topsize % 8 == 0 ==> Valid()) && (os.tidy ==> heap.topsize % 8 == 0) && old(os.calls) <= os.calls
      ensures mem == 0 ==>
        && heap.topsize % 8 == 0 && Owner() == old(Owner())
        && Kept(old(heap.arena.mem), old(Owner()), heap.arena.mem, Owner(), {})
        && RefusesRequest(old(heap.h), old(Now()), bytes, os.calls[|old(os.calls)|..])
      ensures mem != 0 && heap.topsize % 8 == 0 ==>
        Moved(old(heap.arena.mem), old(Owner()), heap.arena.mem, Owner(), oldmem - 16, mem - 16, bytes)
    {
      hide ReuseOrder.Recorded, Whole, HeapOk, LostOk, Laid, Kept, Usable, SegTotal, MapTotal, Moved, ChunkSize,
        IsInuse, IsMmapped, SizeFor, SameBytes, HeapModel.NoneFits, Refuses, OwnMapping, NotMappedFirst;
      ghost var m0, u0 := heap.arena.mem, Owner();
      var oldp := oldmem - 16;
      mem := Malloc(bytes);
      if heap.topsize % 8 != 0 { return; }  // top is out of order, and nothing is said about what follows
      if mem != 0 {
        ghost var m1, u1 := heap.arena.mem, Owner();
        var q := mem - 16;
        KindOf(m1, heap.Bins(), heap.h, heap.Fields(), heap.arena.leastAddr, segs, maps, os.granted,
               params.granularity, noncontiguous, lost, oldp);
        OwnSize(Held(), lost, oldp);
        var w := Rd(heap.arena.mem, oldp + 8);
        var oc := ChunkSize(w) - (if IsMmapped(w) then MMAP_CHUNK_OVERHEAD else CHUNK_OVERHEAD);
        StillOwned(m0, u0, m1, u1, oldp);
        CopyPayload(oldp, q, if oc < bytes then oc else bytes);
        ghost var m2 := heap.arena.mem;
        Free(oldmem);
        TopSize(heap.arena.mem, heap.Bins(), heap.h, heap.Fields(), heap.arena.leastAddr, {});
        MovedByCopy(m0, u0, m1, u1, m2, heap.arena.mem, Owner(), oldp, q, bytes);
      }
    }

    /** dlrealloc of a chunk. */
    method ReallocChunk(oldmem: int, bytes: nat) returns (mem: int)
      requires Valid() && bytes < MAX_REQUEST && oldmem != 0 && oldmem - 16 in Owner()
      modifies this`segs, this`trimCheck, this`releaseChecks, this`footprint, this`maxFootprint, this`noncontiguous,
        this`maps, this`lost, heap, heap.small, heap.tree, heap.arena, os
      ensures (os.tidy ==> heap.topsize % 8 == 0) && old(os.calls) <= os.calls
      ensures mem == 0 ==>
        && heap.topsize % 8 == 0 && Valid()
        && Owner() == old(Owner()) && Kept(old(heap.arena.mem), old(Owner()), heap.arena.mem, Owner(), {})
        && RefusesResize(old(heap.h), old(maps), old(Now()), oldmem - 16, SizeFor(bytes), os.calls[|old(os.calls)|..])
      ensures mem != 0 && heap.topsize % 8 == 0 ==>
        || (Valid() && Moved(old(heap.arena.mem), old(Owner()), heap.arena.mem, Owner(), oldmem - 16, mem - 16, bytes))
        || (!old(MayResize(oldmem - 16, SizeFor(bytes)))
            && MapMisplaced(old(heap.arena.mem), old(os.granted), old(maps), heap.arena.mem, os.granted, oldmem - 16,
                            mem - 16, SizeFor(bytes), params))
      ensures oldmem - 16 !in old(maps) ==> Owned(old(heap.h), oldmem - 16)
      ensures oldmem - 16 !in old(maps) && HeapModel.CanGrow(old(heap.h), oldmem - 16, SizeFor(bytes)) ==> mem == oldmem
    {
      hide ReuseOrder.Recorded, Whole, HeapOk, LostOk, Laid, Kept, Usable, SegTotal, MapTotal, SizeFor, MayRemap,
        Gained, MapMisplaced, HeapModel.NoneFits, Refuses, RefusesResize, Owned, HeapModel.CanGrow, HeapModel.Resizes,
        MapTried;
      ghost var m0, u0, c0, h0, maps0, s := heap.arena.mem, Owner(), os.calls, heap.h, maps, Now();
      var nb := Request2Size(bytes);
      SizeForFits(bytes);
      assert nb == SizeFor(bytes) by { RequestSize(bytes); }
      var oldp := oldmem - 16;
      KindOf(m0, heap.Bins(), h0, heap.Fields(), heap.arena.leastAddr, segs, maps, os.granted, params.granularity,
             noncontiguous, lost, oldp);
      var newp;
      ghost var made;
      newp, made := TryReallocChunk(oldp, nb, true);
      if newp != 0 {
        mem := newp + 16;
      } else {
        ghost var c1 := os.calls;
        mem := MoveChunk(oldmem, bytes);
        if mem == 0 {
          ResizeRefused(h0, maps0, s, oldp, nb, made, os.calls[|c1|..]) by { hide Tries; }
          CallsJoin(c0, made, os.calls);
        }
      }
    }

    /** dlrealloc.  A chunk is refused only if it cannot be resized where it is, and a new one is refused. */
    method Realloc(oldmem: int, bytes: nat) returns (mem: int)
      requires Valid() && bytes < WORD && (oldmem != 0 ==> oldmem - 16 in Owner())
      modifies this`segs, this`trimCheck, this`releaseChecks, this`footprint, this`maxFootprint, this`noncontiguous,
        this`maps, this`lost, heap, heap.small, heap.tree, heap.arena, os
      ensures (os.tidy ==> heap.topsize % 8 == 0) && old(os.calls) <= os.calls
      ensures mem == 0 ==>
        && heap.topsize % 8 == 0
        && Valid() && Owner() == old(Owner()) && Kept(old(heap.arena.mem), old(Owner()), heap.arena.mem, Owner(), {})
      ensures mem == 0 && oldmem == 0 ==> RefusesRequest(old(heap.h), old(Now()), bytes, os.calls[|old(os.calls)|..])
      ensures mem == 0 && oldmem != 0 && bytes < MAX_REQUEST ==>
        RefusesResize(old(heap.h), old(maps), old(Now()), oldmem - 16, SizeFor(bytes), os.calls[|old(os.calls)|..])
      ensures mem != 0 && oldmem == 0 && heap.topsize % 8 == 0 ==>
        && Valid() && Gained(old(Owner()), Owner(), mem - 16, SizeFor(bytes)) && bytes <= Owner()[mem - 16]
        && Kept(old(heap.arena.mem), old(Owner()), heap.arena.mem, Owner(), {})
      ensures mem != 0 && oldmem != 0 && heap.topsize % 8 == 0 ==>
        || (Valid() && Moved(old(heap.arena.mem), old(Owner()), heap.arena.mem, Owner(), oldmem - 16, mem - 16, bytes))
        || (!old(MayResize(oldmem - 16, SizeFor(bytes)))
            && MapMisplaced(old(heap.arena.mem), old(os.granted), old(maps), heap.arena.mem, os.granted, oldmem - 16,
                            mem - 16, SizeFor(bytes), params))
    {
      hide ReuseOrder.Recorded, Whole, HeapOk, LostOk, Laid, Kept, Usable, SegTotal, MapTotal, SizeFor, MayRemap,
        Gained, MapMisplaced, HeapModel.NoneFits, Refuses, RefusesResize, OwnMapping, NotMappedFirst, Moved;
      KeptSame(heap.arena.mem, Owner());
      TopSize(heap.arena.mem, heap.Bins(), heap.h, heap.Fields(), heap.arena.leastAddr, {});
      mem := 0;
      if oldmem == 0 {
        mem := Malloc(bytes);
      } else if bytes < MAX_REQUEST {
        mem := ReallocChunk(oldmem, bytes);
      }
    }

    /** dlrealloc_in_place */
    method ReallocInPlace(oldmem: int, bytes: nat) returns (mem: int)
      requires Valid() && bytes < WORD && (oldmem != 0 ==> oldmem - 16 in Owner())
      modifies this`footprint, this`maxFootprint, this`maps, heap, heap.small, heap.tree, heap.arena, os
      ensures (mem == 0 || mem == oldmem) && old(os.calls) <= os.calls
      ensures mem == 0 ==>
        Valid() && Owner() == old(Owner()) && Kept(old(heap.arena.mem), old(Owner()), heap.arena.mem, Owner(), {})
      ensures mem != 0 ==>
        || (Valid() && Moved(old(heap.arena.mem), old(Owner()), heap.arena.mem, Owner(), mem - 16, mem - 16, bytes))
        || (!old(MayResize(oldmem - 16, SizeFor(bytes)))
            && MapMisplaced(old(heap.arena.mem), old(os.granted), old(maps), heap.arena.mem, os.granted, oldmem - 16,
                            mem - 16, SizeFor(bytes), params))
      ensures oldmem != 0 && bytes < MAX_REQUEST ==>
        && Tries(old(heap.h), old(maps), params, oldmem - 16, SizeFor(bytes), false,
                 if mem == 0 then 0 else oldmem - 16, os.calls[|old(os.calls)|..])
        && ResizesChunk(old(heap.State()), old(maps), oldmem - 16, SizeFor(bytes), heap.State(), mem != 0)
    {
      hide ReuseOrder.Recorded, Whole, HeapOk, LostOk, Laid, Kept, Usable, SegTotal, MapTotal, SizeFor, MayRemap,
        MapMisplaced, ResizesChunk, HeapModel.CanGrow, MapTried, Tries;
      KeptSame(heap.arena.mem, Owner());
      mem := 0;
      if oldmem != 0 && bytes < MAX_REQUEST {
        var nb := Request2Size(bytes);
        SizeForFits(bytes);
        assert nb == SizeFor(bytes) by { RequestSize(bytes); }
        var oldp := oldmem - 16;
        KindOf(heap.arena.mem, heap.Bins(), heap.h, heap.Fields(), heap.arena.leastAddr, segs, maps, os.granted,
               params.granularity, noncontiguous, lost, oldp);
        ghost var c0 := os.calls;
        var newp;
        ghost var made;
        newp, made := TryReallocChunk(oldp, nb, false);
        Since(c0, made);
        if newp == oldp {
          mem := oldmem;
        }
      }
    }

    // -------------------------------------------------------------------------------------
    // memalign and bulk_free

    /** internal_memalign: a mapped chunk begins leadsize bytes later. */
    method LeadMapped(p: int, leadsize: nat) returns (pos: int)
      requires Valid() && p in maps && p !in lost && leadsize % 16 == 0 && MIN_CHUNK_SIZE <= leadsize
      requires leadsize + MIN_CHUNK_SIZE <= maps[p].ChunkBytes(p)
      modifies this`maps, heap.arena`mem
      ensures pos == p + leadsize && Valid() && pos in maps && pos !in old(Held())
      ensures Held() == (old(Held()) - {p})[pos := old(maps)[p].ChunkBytes(p) - leadsize - MMAP_CHUNK_OVERHEAD]
        && Kept(old(heap.arena.mem), old(Held()), heap.arena.mem, Held(), {p})
    {
      hide ReuseOrder.Recorded, Whole, HeapOk, Laid, Kept, Usable, SegTotal, MapTotal, ChunkSize, LostOk, IsInuse,
        IsMmapped, LeadTags, Pinuse, SpaceOk, Kinds, MapsAbove;
      ghost var m, b, h, k, least := heap.arena.mem, heap.Bins(), heap.h, heap.Fields(), heap.arena.leastAddr;
      MappedTags(m, segs, maps, p,
                 least) by { LaidSegs(m, h, least, segs, maps, os.granted, params.granularity, noncontiguous); }
      pos := p + leadsize;
      var newsize := ChunkSize(Rd(heap.arena.mem, p + 8)) - leadsize;
      LeadAll(m, b, h, k, least, segs, maps, os.granted, params.granularity, noncontiguous, lost, p, leadsize);
      heap.arena.mem := LeadTags(heap.arena.mem, pos, Rd(heap.arena.mem, p) + leadsize, newsize);
      maps := Rekeyed(maps, p, pos);
    }

    /** internal_memalign in a mapped chunk: the chunk begins at the aligned place, and keeps its end. */
    method AlignMapped(p: int, alignment: nat, nb: nat) returns (mem: int)
      requires Valid() && p in maps && p !in lost && alignment >= MIN_CHUNK_SIZE && alignment % 16 == 0 && nb % 16 == 0
        && nb >= MIN_CHUNK_SIZE
      requires nb + alignment + MIN_CHUNK_SIZE - 8 <= Held()[p]
      modifies this`maps, heap.arena`mem
      ensures Valid() && Aligned(mem, alignment) && mem - 16 in Held() && nb - 8 <= Held()[mem - 16] && mem > 16
        && mem % 16 == 0
      ensures (mem - 16 == p || mem - 16 !in old(Held())) && mem - 16 in maps
      ensures Held() == (old(Held()) - {p})[mem - 16 := Held()[mem - 16]]
        && Kept(old(heap.arena.mem), old(Held()), heap.arena.mem, Held(), {p})
    {
      hide ReuseOrder.Recorded, Whole, HeapOk, Laid, Kept, Usable, SegTotal, MapTotal, Aligned, AlignUp, LostOk;
      ghost var m, h, u0 := heap.arena.mem, heap.h, Held();
      MappedPlace(m, heap.Bins(), h, heap.Fields(), heap.arena.leastAddr, segs, maps, os.granted, params.granularity,
                  noncontiguous, p);
      mem := p + 16;
      if !Aligned(mem, alignment) {
        var br := AlignUp(mem, alignment) - 16;
        var pos := if br - p >= MIN_CHUNK_SIZE then br else br + alignment;
        LeaderSize(p, alignment, pos);
        var leadsize := pos - p;
        pos := LeadMapped(p, leadsize);
        mem := pos + 16;
      } else {
        NothingMoved(m, u0, p);
      }
    }

    /** internal_memalign in a chunk of the heap. */
    method AlignInHeap(p: int, alignment: nat, nb: nat) returns (mem: int)
      requires Valid() && p in Held() && p !in maps && p !in lost && alignment >= MIN_CHUNK_SIZE && alignment % 16 == 0
      requires nb % 16 == 0 && nb >= MIN_CHUNK_SIZE && nb + alignment + MIN_CHUNK_SIZE - 8 <= Held()[p]
      modifies heap, heap.small, heap.tree, heap.arena`mem
      ensures Valid() && Aligned(mem, alignment) && mem - 16 in Held() && nb - 8 <= Held()[mem - 16] <= nb + 24
        && mem > 16 && mem % 16 == 0
      ensures mem - 16 == p || mem - 16 !in old(Held())
      ensures Held() == (old(Held()) - {p})[mem - 16 := Held()[mem - 16]]
        && Kept(old(heap.arena.mem), old(Held()), heap.arena.mem, Held(), {p})
    {
      hide ReuseOrder.Recorded, Whole, HeapOk, Laid, Kept, Usable, SegTotal, MapTotal, Aligned, LostOk, IsInuse,
        IsMmapped, Placed, Owned, ChunkSize, Tame;
      ghost var m, b, h, k, least, u0 := heap.arena.mem, heap.Bins(), heap.h, heap.Fields(),
        heap.arena.leastAddr, Held();
      InUseNotLost(u0, lost, p);
      KindOf(m, b, h, k, least, segs, maps, os.granted, params.granularity, noncontiguous, lost, p);
      OwnedIs(h, p);
      mem := heap.AlignWithin(p, alignment, nb);
      PlacedAll(m, b, h, k, least, heap.arena.mem, heap.Bins(), heap.h, heap.Fields(), segs, maps, os.granted,
                params.granularity, noncontiguous, p, mem - 16, nb);
      ChunkPlace(heap.arena.mem, heap.Bins(), heap.h, heap.Fields(), heap.arena.leastAddr, mem - 16);
    }

    /** internal_memalign, behind the call of malloc. */
    method AlignChunk(p: int, alignment: nat, nb: nat) returns (mem: int)
      requires Valid() && p in Owner() && alignment >= MIN_CHUNK_SIZE && alignment % 16 == 0
      requires nb % 16 == 0 && nb >= MIN_CHUNK_SIZE && nb + alignment + MIN_CHUNK_SIZE - 8 <= Held()[p]
      modifies this`maps, heap, heap.small, heap.tree, heap.arena`mem
      ensures Valid() && Aligned(mem, alignment) && mem - 16 in Held() && nb - 8 <= Held()[mem - 16] && mem > 16
        && mem % 16 == 0
      ensures (mem - 16 in maps || Held()[mem - 16] <= nb + 24) && (mem - 16 == p || mem - 16 !in old(Held()))
      ensures Held() == (old(Held()) - {p})[mem - 16 := Held()[mem - 16]]
        && Kept(old(heap.arena.mem), old(Held()), heap.arena.mem, Held(), {p})
    {
      hide ReuseOrder.Recorded, Whole, HeapOk, LostOk, Laid, Kept, Usable, SegTotal, MapTotal, Aligned,
        IsMmapped, IsInuse;
      OwnSize(Held(), lost, p);
      KindOf(heap.arena.mem, heap.Bins(), heap.h, heap.Fields(), heap.arena.leastAddr, segs, maps, os.granted,
             params.granularity, noncontiguous, lost, p);
      if IsMmapped(Rd(heap.arena.mem, p + 8)) {
        mem := AlignMapped(p, alignment, nb);
      } else {
        mem := AlignInHeap(p, alignment, nb);
      }
    }

    /** internal_memalign, for an alignment that is a power of two. */
    method InternalMemalign(alignment: nat, bytes: nat) returns (mem: int)
      requires Valid() && MIN_CHUNK_SIZE <= alignment <= MAX_ALIGNMENT && alignment % 16 == 0 && bytes < WORD
      modifies this`segs, this`trimCheck, this`releaseChecks, this`footprint, this`maxFootprint,
        this`noncontiguous, this`maps, heap, heap.small, heap.tree, heap.arena, os
      ensures (heap.topsize % 8 == 0 ==> Valid()) && (os.tidy ==> heap.topsize % 8 == 0) && old(os.calls) <= os.calls
      ensures mem == 0 && heap.topsize % 8 == 0 ==>
        && Owner() == old(Owner()) && footprint == old(footprint)
        && RefusesAligned(old(heap.h), old(Now()), alignment, bytes, os.calls[|old(os.calls)|..])
      ensures mem != 0 && heap.topsize % 8 == 0 ==>
        && bytes < MAX_REQUEST && Gained(old(Owner()), Owner(), mem - 16, SizeFor(bytes)) && Aligned(mem, alignment)
        && (mem - 16 in maps || Owner()[mem - 16] <= SizeFor(bytes) + 24)
      ensures heap.topsize % 8 == 0 ==> Kept(old(heap.arena.mem), old(Owner()), heap.arena.mem, Owner(), {})
      ensures footprintLimit == 0 || footprint <= footprintLimit || footprint == old(footprint)
    {
      hide ReuseOrder.Recorded, Whole, HeapOk, LostOk, Laid, Kept, Usable, SegTotal, MapTotal, SizeFor, Aligned,
        Request2Size, RefusesRequest, RefusesAligned;
      ghost var m0, u0, h0, s, c0 := heap.arena.mem, Owner(), heap.h, Now(), os.calls;
      KeptSame(m0, u0);
      TopSize(m0, heap.Bins(), heap.h, heap.Fields(), heap.arena.leastAddr, {});
      mem := 0;
      if bytes >= MAX_REQUEST - alignment {
        NoneRefused(h0, s, alignment, bytes);
        assert os.calls[|c0|..] == [];
        return;
      }
      var nb := Request2Size(bytes);
      RoundedRequest(bytes, alignment);
      var req := nb + alignment + MIN_CHUNK_SIZE - CHUNK_OVERHEAD;
      mem := Malloc(req);
      if mem == 0 { AlignedRefused(h0, s, alignment, bytes, os.calls[|c0|..]); }
      if heap.topsize % 8 != 0 { return; }  // top is out of order, and nothing is said about what follows
      if mem != 0 {
        ghost var m1, u1, held1 := heap.arena.mem, Owner(), Held();
        var p := mem - 16;
        OwnSize(held1, lost, p);
        LostInUse(heap.h, maps, lost);
        mem := AlignChunk(p, alignment, nb);
        TopSize(heap.arena.mem, heap.Bins(), heap.h, heap.Fields(), heap.arena.leastAddr, {});
        AlignedOwn(m0, u0, m1, held1, heap.arena.mem, Held(), lost, p, mem - 16, nb);
      }
    }

    /** dlmemalign */
    method Memalign(alignment0: nat, bytes: nat) returns (mem: int)
      requires Valid() && alignment0 <= MAX_ALIGNMENT && bytes < WORD
      modifies this`segs, this`trimCheck, this`releaseChecks, this`footprint, this`maxFootprint,
        this`noncontiguous, this`maps, heap, heap.small, heap.tree, heap.arena, os
      ensures (heap.topsize % 8 == 0 ==> Valid()) && (os.tidy ==> heap.topsize % 8 == 0) && old(os.calls) <= os.calls
      ensures mem == 0 && heap.topsize % 8 == 0 ==>
        && Owner() == old(Owner()) && footprint == old(footprint)
        && RefusesMemalign(old(heap.h), old(Now()), alignment0, bytes, os.calls[|old(os.calls)|..])
      ensures mem != 0 && heap.topsize % 8 == 0 ==>
        && Gained(old(Owner()), Owner(), mem - 16, SizeFor(bytes)) && bytes <= Owner()[mem - 16]
        && (mem - 16 in maps || Owner()[mem - 16] <= SizeFor(bytes) + 24)
        && (PowerOfTwo(alignment0) ==> Aligned(mem, alignment0))
        && (alignment0 > 16 ==> exists a: nat ::
             alignment0 <= a && PowerOfTwo(a) && (a == 32 || a < 2 * alignment0) && Aligned(mem, a))
      ensures heap.topsize % 8 == 0 ==> Kept(old(heap.arena.mem), old(Owner()), heap.arena.mem, Owner(), {})
      ensures footprintLimit == 0 || footprint <= footprintLimit || footprint == old(footprint)
    {
      hide ReuseOrder.Recorded, Whole, HeapOk, LostOk, Laid, Kept, Usable, SegTotal, MapTotal, SizeFor, Aligned,
        PowerOfTwo, RefusesRequest, RefusesAligned;
      if alignment0 <= 16 {
        mem := Malloc(bytes);
        if mem != 0 && heap.topsize % 8 == 0 {
          GainedAligned(old(Owner()), Owner(), mem - 16, SizeFor(bytes), alignment0);
        }
      } else {
        var alignment := RoundAlignment(alignment0);
        mem := InternalMemalign(alignment, bytes);
        if mem != 0 && heap.topsize % 8 == 0 {
          GainedFits(old(Owner()), Owner(), mem - 16, bytes);
          LessAligned(mem, alignment0, alignment);
        }
      }
    }

    /** internal_bulk_free, on an entry that is followed by the chunk behind its own. */
    method JoinEntries(p: int, psize: int, next: int)
      requires Valid() && p in Owner() && next in Owner() && psize == ChunkSize(Rd(heap.arena.mem, p + 8))
        && next == p + psize
      modifies heap, heap.small, heap.tree, heap.arena`mem
      ensures Valid() && p != next && p in Owner() && Owner() == (old(Owner()) - {p, next})[p := Owner()[p]]
      ensures Kept(old(heap.arena.mem), old(Owner()), heap.arena.mem, Owner(), {p, next})
      ensures p in UsedMap(heap.h) && heap.h.R == old(heap.h.R)
      ensures UsedMap(heap.h) == (UsedMap(old(heap.h)) - {p, next})[p := UsedMap(heap.h)[p]]
    {
      hide ReuseOrder.Recorded, Whole, HeapOk, LostOk, Laid, Kept, Usable, SegTotal, MapTotal, ChunkSize, IsInuse,
        IsMmapped;
      ghost var m, b, h, k, least, u0 := heap.arena.mem, heap.Bins(), heap.h, heap.Fields(),
        heap.arena.leastAddr, Held();
      Joinable(m, b, h, k, least, segs, maps, os.granted, params.granularity, noncontiguous, lost, p, next);
      OwnSize(u0, lost, p);
      heap.JoinNext(p, psize, next);
      JoinedAll(m, b, h, k, least, heap.arena.mem, heap.Bins(), heap.h, heap.Fields(), segs, maps, os.granted,
                params.granularity, noncontiguous, p, next);
      OwnJoined(u0, Held(), lost, p, next, heap.h.C[p] - 8);
      OwnKept(m, u0, heap.arena.mem, Held(), {p, next}, lost);
    }

    /** internal_bulk_free, on one entry: it is joined with the next, or freed. */
    method BulkFreeEntry(a: array<int>, i: nat, ghost m0: Mem, ghost u0: map<int, int>, ghost h0: Shape,
                         ghost E: set<int>)
      requires Valid() && i < a.Length && a[i] != 0 && Pending(m0, u0, heap.arena.mem, Owner(), E, a[i..])
      requires ToDo(h0, heap.h, E, a[i..])
      modifies this`maps, this`lost, this`footprint, heap, heap.small, heap.tree, heap.arena`mem, os, a
      ensures old(os.calls) <= os.calls && Valid() && footprint <= old(footprint) && a[i] == 0
        && forall j | 0 <= j < i :: a[j] == old(a[j])
      ensures Pending(m0, u0, heap.arena.mem, Owner(), E, a[i + 1..]) && ToDo(h0, heap.h, E, a[i + 1..])
    {
      hide ReuseOrder.Recorded, Whole, HeapOk, LostOk, Laid, Kept, Usable, SegTotal, MapTotal, ChunkSize, IsInuse,
        IsMmapped, Pending, ToDo, FreesEntry, Without, OnceEach, UsedMap, TagsOk;
      ghost var m1, u1, h1, w1, s := heap.arena.mem, Owner(), heap.h, heap.State(), a[i..];
      TagsIn(m1, heap.Bins(), h1, heap.Fields(), heap.arena.leastAddr, {});
      var mem := a[i];
      assert a[i + 1..] == s[1..];
      var p := mem - 16;
      FirstPending(m0, u0, m1, u1, E, s);
      KindOf(m1, heap.Bins(), heap.h, heap.Fields(), heap.arena.leastAddr, segs, maps, os.granted, params.granularity,
             noncontiguous, lost, p);
      var psize := ChunkSize(Rd(heap.arena.mem, p + 8));
      a[i] := 0;
      if p >= heap.arena.leastAddr && IsInuse(Rd(heap.arena.mem, p + 8)) {
        var next := p + psize;
        if i + 1 < a.Length && a[i + 1] == next + 16 {
          JoinEntries(p, psize, next);
          a[i + 1] := p + 16;
          assert a[i + 1..] == s[1..][0 := p + 16];
          JoinedToDo(h0, h1, heap.h, E, s, p, next);
          JoinedEntry(m0, u0, m1, u1, heap.arena.mem, Owner(), E, s, p, next);
        } else {
          assert a[i + 1..] == s[1..];
          var after := Dispose(p, false);
          EntryFreed(m1, w1, p, heap.State());
          FreedToDo(h0, h1, heap.h, E, s, p);
          FreedEntry(m0, u0, m1, u1, heap.arena.mem, Owner(), E, s, p);
        }
      } else {
        assert false;  // CORRUPTION_ERROR_ACTION
      }
    }

    /** The loop of internal_bulk_free: every chunk in the array is freed, neighbours being joined first.  By
        BulkFreeing.OneByOne the chunks of the heap are then the ones that Dispose would leave, called for
        the entries one by one. */
    method BulkFreeEntries(a: array<int>)
      requires Valid() && OnceEach(a[..]) && forall x | x in Listed(a[..]) :: x in Owner()
      modifies this`maps, this`lost, this`footprint, heap, heap.small, heap.tree, heap.arena`mem, os, a
      ensures old(os.calls) <= os.calls && Valid() && footprint <= old(footprint)
        && forall i | 0 <= i < a.Length :: a[i] == 0
      ensures Without(old(heap.h), Listed(old(a[..])), heap.h) && Owner() == old(Owner()) - Listed(old(a[..]))
      ensures Kept(old(heap.arena.mem), old(Owner()), heap.arena.mem, Owner(), Listed(old(a[..])))
    {
      hide ReuseOrder.Recorded, Whole, HeapOk, LostOk, Laid, Kept, Usable, SegTotal, MapTotal, OnceEach, Pending,
        Without;
      ghost var m0, u0, h0, E := heap.arena.mem, Owner(), heap.h, Listed(a[..]);
      StartPending(m0, u0, a[..]);
      assert a[0..] == a[..];
      var i := 0;
      while i < a.Length
        invariant 0 <= i <= a.Length && Valid() && footprint <= old(footprint) && forall j | 0 <= j < i :: a[j] == 0
        invariant old(os.calls) <= os.calls
        invariant Pending(m0, u0, heap.arena.mem, Owner(), E, a[i..]) && ToDo(h0, heap.h, E, a[i..])
      {
        if a[i] != 0 {
          BulkFreeEntry(a, i, m0, u0, h0, E);
        } else {
          assert a[i + 1..] == a[i..][1..];
          PendingOnce(m0, u0, heap.arena.mem, Owner(), E, a[i..]);
          NullToDo(h0, heap.h, E, a[i..]);
          NullEntry(m0, u0, heap.arena.mem, Owner(), E, a[i..]);
        }
        i := i + 1;
      }
      assert a[i..] == [];
      NoneToDo(h0, heap.h, E);
      NonePending(m0, u0, heap.arena.mem, Owner(), E);
    }

    /** internal_bulk_free */
    method BulkFree(a: array<int>)
      requires Valid() && OnceEach(a[..]) && forall x | x in Listed(a[..]) :: x in Owner()
      modifies this`segs, this`trimCheck, this`releaseChecks, this`footprint, this`maps, this`lost,
        heap, heap.small, heap.tree, heap.arena`mem, os, a
      ensures old(os.calls) <= os.calls && Valid() && footprint <= old(footprint)
        && forall i | 0 <= i < a.Length :: a[i] == 0
      ensures heap.topsize <= trimCheck || footprint < old(footprint)
      ensures Owner() == old(Owner()) - Listed(old(a[..]))
      ensures Kept(old(heap.arena.mem), old(Owner()), heap.arena.mem, Owner(), Listed(old(a[..])))
    {
      hide ReuseOrder.Recorded, Whole, HeapOk, LostOk, Laid, Kept, Usable, SegTotal, MapTotal, OnceEach,
        Listed, Without;
      ghost var m0, u0, E := heap.arena.mem, Owner(), Listed(a[..]);
      BulkFreeEntries(a);
      TrimAfterBulk(m0, u0, E);
    }

    /** The end of internal_bulk_free. */
    method TrimAfterBulk(ghost m0: Mem, ghost u0: map<int, int>, ghost E: set<int>)
      requires Valid() && Kept(m0, u0, heap.arena.mem, Owner(), E)
      modifies this`segs, this`footprint, this`trimCheck, this`releaseChecks, heap, heap.small, heap.tree,
        heap.arena`mem, os
      ensures Valid() && Owner() == old(Owner()) && footprint <= old(footprint) && old(os.calls) <= os.calls
        && Kept(m0, u0, heap.arena.mem, Owner(), E) && (heap.topsize <= trimCheck || footprint < old(footprint))
    {
      hide ReuseOrder.Recorded, Whole, HeapOk, LostOk, Laid, Kept, Usable, SegTotal, MapTotal;
      if heap.topsize > trimCheck {
        ghost var m1, u1 := heap.arena.mem, Held();
        var trimmed := SysTrim(0);
        OwnKept(m1, u1, heap.arena.mem, Held(), {}, lost);
        KeptAfter(m0, u0, m1, u1 - lost, heap.arena.mem, Owner(), E);
      }
    }
  }
}
