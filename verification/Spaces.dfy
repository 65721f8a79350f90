/** What malloc_state knows about its space: segments, mapped chunks, the footprint, and the sizes it asks
    the system for (malloc.c, "mmap_align", "granularity_align" and sys_alloc). */
module Spaces {
  import opened Words
  import opened Tiling
  import opened ChunkMemory
  import opened AllBins
  import opened Chunks
  import opened HeapState
  import opened HeapInvariant
  import opened Segments
  import opened System
  import opened Payloads
  import opened SpaceSteps
  import opened HeapFacts
  import TreeState

  const SYS_ALLOC_PADDING: int := TOP_FOOT_SIZE + 16
  const HALF_MAX_SIZE_T: int := 0x7FFF_FFFF_FFFF_FFFF
  const MAX_RELEASE_CHECK_RATE: int := 4095

  /** malloc_params */
  datatype Params = Params(page: nat, granularity: nat, mmapThreshold: nat, trimThreshold: nat) {
    predicate Valid() {
      && page % 16 == 0 && granularity % 16 == 0 && 4096 <= page <= granularity <= LIMIT
    }
  }

  type MParams = p: Params | p.Valid() witness Params(4096, 65536, 262144, 2097152)

  /** page_align and granularity_align: to the next multiple, computed modulo the word size. */
  function RoundTo(x: nat, unit: nat): (r: nat)
    requires unit > 0
  {
    var y := Wrap(x + unit - 1);
    DivMod(y / unit, unit, y % unit);
    y / unit * unit
  }

  // ---------------------------------------------------------------------------------------
  // Rounding

  lemma Quotients(y: nat, unit: nat)
    requires unit > 0
    ensures var r := y / unit * unit; r <= y < r + unit && r % unit == 0
  {
    var q := y / unit;
    assert y == unit * q + y % unit;
    assert q * unit == unit * q;
    DivMod(q, unit, 0);
  }

  /** Rounding up, unless it wraps around; and then the result is small. */
  lemma RoundUpOrWrap(x: nat, unit: nat)
    requires 0 < unit <= WORD && x < WORD
    ensures var r := RoundTo(x, unit);
      && r % unit == 0
      && if x + unit - 1 < WORD then x <= r < x + unit else r == 0
  {
    var y := Wrap(x + unit - 1);
    Quotients(y, unit);
    if x + unit - 1 >= WORD {
      assert y == x + unit - 1 - WORD;
      assert y < unit;
      assert y / unit == 0 by { DivMod(0, unit, y); }
    }
  }

  lemma RoundedIsWord(x: nat, unit: nat)
    requires unit > 0
    ensures RoundTo(x, unit) < WORD
  {
    Quotients(Wrap(x + unit - 1), unit);
  }

  lemma SixteenOf(r: nat, unit: nat)
    requires unit > 0 && unit % 16 == 0 && r % unit == 0
    ensures r % 16 == 0
  {
    var q := r / unit;
    assert r == unit * q;
    MultipleOfMultiple(q, unit);
    assert q * unit == unit * q;
  }

  lemma RoundedSixteen(x: nat, unit: nat)
    requires 0 < unit <= WORD && unit % 16 == 0 && x < WORD
    ensures RoundTo(x, unit) % 16 == 0 && (x + unit <= WORD ==> RoundTo(x, unit) >= x)
  {
    RoundUpOrWrap(x, unit);
    SixteenOf(RoundTo(x, unit), unit);
  }

  /** When the size of a request, with the padding and rounded up, exceeds the request, nothing wrapped. */
  lemma AskedSize(nb: nat, pad: nat, unit: nat)
    requires 4096 <= unit <= LIMIT && unit % 16 == 0 && nb < WORD && pad <= SYS_ALLOC_PADDING
    requires RoundTo(Wrap(nb + pad), unit) > nb
    ensures nb + pad + unit <= WORD
    ensures var asize := RoundTo(Wrap(nb + pad), unit);
      asize == RoundTo(nb + pad, unit) && Whole(asize, unit) && asize % 16 == 0 && nb + pad <= asize < nb + pad + unit
  {
    var x := Wrap(nb + pad);
    RoundUpOrWrap(x, unit);
    SixteenOf(RoundTo(x, unit), unit);
  }

  /** The size of a request exceeds it just if nothing wraps around. */
  lemma AskedIf(nb: nat, pad: nat, unit: nat)
    requires 4096 <= unit <= LIMIT && unit % 16 == 0 && nb < WORD && 0 < pad <= SYS_ALLOC_PADDING
    ensures RoundTo(Wrap(nb + pad), unit) > nb <==> nb + pad + unit <= WORD
    ensures nb + pad + unit <= WORD ==>
      RoundTo(Wrap(nb + pad), unit) == RoundTo(nb + pad, unit) && Wrap(nb + pad) == nb + pad
  {
    hide RoundTo;
    if RoundTo(Wrap(nb + pad), unit) > nb { AskedSize(nb, pad, unit); }
    if nb + pad + unit <= WORD { RoundUpOrWrap(nb + pad, unit); }
  }

  lemma ShiftedQuotient(y: nat, unit: nat, c: nat)
    requires unit > 0 && c * unit <= y
    ensures (y - c * unit) / unit * unit == y / unit * unit - c * unit
  {
    var q := y / unit;
    assert y == unit * q + y % unit;
    assert unit * q == q * unit;
    assert (q - c) * unit == q * unit - c * unit;
    if q < c { AnotherUnit(q, c, unit); }
    DivMod(q - c, unit, y % unit);
    assert y - c * unit == (q - c) * unit + y % unit;
  }

  /** Asking for what top lacks, and then for the rest, asks for no more than asking at once. */
  lemma AskedTwice(x: nat, unit: nat, s: nat)
    requires 4096 <= unit <= LIMIT && x + unit <= WORD && s % unit == 0 && s < x
    ensures RoundTo(x - s, unit) + s == RoundTo(x, unit)
  {
    var c := s / unit;
    assert s == c * unit by { assert s == unit * c; assert unit * c == c * unit; }
    ShiftedQuotient(x + unit - 1, unit, c);
  }

  /** What top lacks is no more than all. */
  lemma AskedLess(x: nat, t: nat, unit: nat)
    requires 4096 <= unit <= LIMIT && x + unit <= WORD && t <= x
    ensures RoundTo(x - t, unit) <= RoundTo(x, unit) && RoundTo(x - t, unit) >= x - t
  {
    RoundUpOrWrap(x - t, unit);
    RoundedMono(x - t + unit - 1, x + unit - 1, unit);
  }

  lemma RoundedMono(y: nat, z: nat, unit: nat)
    requires unit > 0 && y <= z
    ensures y / unit * unit <= z / unit * unit
  {
    var i, j := y / unit, z / unit;
    Quotients(y, unit);
    Quotients(z, unit);
    if i > j { AnotherUnit(j, i, unit); }
  }

  lemma AnotherUnit(j: int, i: int, unit: nat)
    requires j < i
    ensures j * unit + unit <= i * unit
  {
    MulMono(j + 1, i, unit);
    assert (j + 1) * unit == j * unit + unit;
  }

  /** Going on to the end of a page does not make less of a request, unless that is not granted anyway. */
  lemma PageRest(base: nat, page: nat, nb: nat, asize: nat)
    requires 4096 <= page <= LIMIT && base < WORD && nb + SYS_ALLOC_PADDING <= asize < nb + SYS_ALLOC_PADDING + LIMIT
      && asize < WORD
    ensures var ssize := Wrap(asize + Wrap(RoundTo(base, page) - base)); ssize > nb ==> ssize >= asize
  {
    hide RoundTo, Wrap;
    RoundUpOrWrap(base, page);
    var r := RoundTo(base, page) - base;
    WrapNear(r);
    var d := Wrap(r);
    assert 0 <= d < page;
    WrapNear(asize + d);
  }

  /** Where the first segment ends when the break stayed where it was: at the end of a page. */
  lemma PageEnd(base: nat, page: nat, asize: nat, ssize: nat)
    requires 4096 <= page <= LIMIT && page % 16 == 0 && asize % 16 == 0 && asize < WORD && base + ssize <= LIMIT
      && asize <= ssize
    requires ssize == Wrap(asize + Wrap(RoundTo(base, page) - base))
    ensures (base + ssize) % 8 == 0
  {
    hide RoundTo, Wrap;
    RoundUpOrWrap(base, page);
    var r := RoundTo(base, page);
    SixteenOf(r, page);
    assert base <= r < base + page;
    assert Wrap(r - base) == r - base by { WrapNear(r - base); }
    WrapNear(asize + (r - base));
    assert base + ssize == r + asize;
    BothSixteens(r, asize);
  }

  lemma SizeOf8(base: nat, page: nat, asize: nat)
    requires 4096 <= page <= LIMIT && page % 16 == 0 && asize % 16 == 0 && base < WORD
    ensures base % 8 == 0 ==> Wrap(asize + Wrap(RoundTo(base, page) - base)) % 8 == 0
  {
    hide RoundTo, Wrap;
    RoundedSixteen(base, page);
    if base % 8 == 0 {
      var r := RoundTo(base, page);
      LessEights(r, base);
      WrapOf8(r - base);
      var d: int := Wrap(r - base);
      LessEights(asize, -d);
      WrapOf8(asize + Wrap(r - base));
    }
  }

  lemma LessEights(x: int, y: int)
    requires x % 16 == 0 && y % 8 == 0
    ensures (x - y) % 8 == 0
  {
  }

  lemma WrapOf8(x: int)
    requires x % 8 == 0
    ensures Wrap(x) % 8 == 0
  {
  }

  /** How much sys_alloc asks for the first segment: to the end of a page. */
  function FirstSize(base: nat, page: nat, asize: nat): nat
    requires page > 0
  {
    if base % page != 0 then Wrap(asize + Wrap(RoundTo(base, page) - base)) else asize
  }

  lemma FirstEnd(base: nat, page: nat, nb: nat, asize: nat)
    requires 4096 <= page <= LIMIT && page % 16 == 0 && asize % 16 == 0 && asize < WORD && base < WORD
    requires nb + SYS_ALLOC_PADDING <= asize < nb + SYS_ALLOC_PADDING + LIMIT
    ensures var ssize := FirstSize(base, page, asize);
      && ssize < WORD
      && (ssize > nb ==> ssize >= asize)
      && (ssize > nb && base + ssize <= LIMIT ==> (base + ssize) % 8 == 0) && (base % 8 == 0 ==> ssize % 8 == 0)
  {
    hide RoundTo, Wrap;
    var ssize := FirstSize(base, page, asize);
    if base % page != 0 {
      PageRest(base, page, nb, asize);
      SizeOf8(base, page, asize);
      if ssize > nb && base + ssize <= LIMIT { PageEnd(base, page, asize, ssize); }
    } else {
      SixteenOf(base, page);
      BothSixteens(base, asize);
    }
  }

  lemma BothSixteens(r: int, asize: int)
    requires r % 16 == 0 && asize % 16 == 0
    ensures (r + asize) % 8 == 0 && asize % 8 == 0
  {
  }

  lemma WrapNear(x: int)
    requires -WORD <= x < 2 * WORD
    ensures Wrap(x) == if x < 0 then x + WORD else if x < WORD then x else x - WORD
  {
  }

  /** The comparison with the limit is the intended one, even if the sum wraps around. */
  lemma WithinLimit(footprint: nat, n: nat, limit: int)
    requires n < WORD
    ensures var fp := Wrap(footprint + n); fp > footprint && fp <= limit ==> footprint + n <= limit
  {
    if footprint < WORD { WrapNear(footprint + n); }
  }

  // ---------------------------------------------------------------------------------------
  // The invariant of the space

  /** n is a multiple of the unit. */
  predicate Whole(n: int, unit: nat) {
    unit > 0 && n % unit == 0
  }

  /** Only mmapped segments come in whole units, and there are none before a contiguous extension failed. */
  predicate Kinds(segs: seq<Segment>, unit: nat, noncontiguous: bool)
    requires unit > 0
  {
    forall i | 0 <= i < |segs| && segs[i].mmapped :: noncontiguous && Whole(segs[i].size, unit)
  }

  predicate MapsAbove(maps: Mappings, leastAddr: int) {
    forall c | c in maps :: c >= leastAddr
  }

  ghost predicate Laid(m: Mem, h: Shape, leastAddr: int, segs: seq<Segment>, maps: Mappings, granted: set<int>,
                       unit: nat, noncontiguous: bool)
    requires unit > 0
  {
    && SpaceOk(m, h, segs, maps, granted) && Kinds(segs, unit, noncontiguous) && MapsAbove(maps, leastAddr)
    && (segs == [] ==> maps == map[]) && leastAddr >= 0 && (segs != [] ==> leastAddr > 0)
  }

  /** The mapped chunks that were freed in vain are mapped still. */
  predicate LostOk(lost: set<int>, maps: Mappings) {
    lost <= maps.Keys
  }

  /** Whether tsize bytes at tbase are enough to serve nb bytes from top or from the block itself. */
  predicate Enough(segs: seq<Segment>, topsize: int, nb: int, tbase: int, tsize: int) {
    || nb + SYS_ALLOC_PADDING <= tsize
    || (segs != [] && tbase == segs[0].End() && !segs[0].mmapped && nb + SYS_ALLOC_PADDING <= topsize + tsize)
  }

  // ---------------------------------------------------------------------------------------
  // Memory from the system

  /** The n bytes at b are new. */
  predicate Got(granted: set<int>, granted': set<int>, b: int, n: int) {
    New(granted, b, n) && granted + Bytes(b, n) <= granted' && n > 0
  }

  lemma StillAll(segs: seq<Segment>, maps: Mappings, granted: set<int>, granted': set<int>)
    requires HasAll(granted, segs, maps) && granted <= granted'
    ensures HasAll(granted', segs, maps)
  {
    forall i | 0 <= i < |segs| ensures Has(granted', segs[i].base, segs[i].size) {
      assert Has(granted, segs[i].base, segs[i].size);
    }
    forall c | c in maps ensures Has(granted', maps[c].base, maps[c].size) {
      assert Has(granted, maps[c].base, maps[c].size);
    }
  }

  lemma StillLaid(m: Mem, h: Shape, leastAddr: int, segs: seq<Segment>, maps: Mappings, granted: set<int>,
                  granted': set<int>, unit: nat, noncontiguous: bool, noncontiguous': bool)
    requires unit > 0 && Laid(m, h, leastAddr, segs, maps, granted, unit, noncontiguous) && granted <= granted'
    requires noncontiguous ==> noncontiguous'
    ensures Laid(m, h, leastAddr, segs, maps, granted', unit, noncontiguous')
  {
    hide SegsOk, MapsOk, HasAll;
    StillAll(segs, maps, granted, granted');
  }

  /** New memory is apart from all that is held. */
  lemma GotBlock(m: Mem, h: Shape, segs: seq<Segment>, maps: Mappings, granted: set<int>,
                 granted': set<int>, b: int, n: int)
    requires TagsOk(m, h) && SpaceOk(m, h, segs, maps, granted) && Got(granted, granted', b, n)
    ensures NewBlock(segs, maps, b, n) && Has(granted', b, n) && granted <= granted'
  {
    hide TagsOk, SegsOk, MapsOk, HasAll;
    NewIsApart(m, h, segs, maps, granted, b, n);
    forall a | b <= a < b + n ensures a in granted' {
      assert Holds(b, n, a);
      assert a in Bytes(b, n);
    }
  }

  lemma GotAtOnce(granted: set<int>, b: int, n: int)
    requires New(granted, b, n) && n > 0
    ensures Got(granted, granted + Bytes(b, n), b, n)
  {
  }

  /** The system gave n bytes at b, and they are enough. */
  ghost predicate Obtained(granted: set<int>, granted': set<int>, segs: seq<Segment>, topsize: int, nb: int,
                           b: int, n: int) {
    Got(granted, granted', b, n) && Enough(segs, topsize, nb, b, n) && (segs != [] ==> n % 16 == 0)
  }

  /** The size that sys_alloc computes. */
  predicate Asked(nb: nat, unit: nat, asize: nat)
    requires unit > 0
  {
    && nb + SYS_ALLOC_PADDING + unit <= WORD && asize == RoundTo(nb + SYS_ALLOC_PADDING, unit)
    && nb + SYS_ALLOC_PADDING <= asize < nb + SYS_ALLOC_PADDING + unit && asize % 16 == 0 && Whole(asize, unit)
  }

  /** What top lacks, once more rounded, and then what is still missing. */
  lemma PartialSizes(nb: nat, t: nat, unit: nat, asize: nat)
    requires 4096 <= unit <= LIMIT && Asked(nb, unit, asize) && t <= nb
    requires unit % 16 == 0
    ensures var ssize := RoundTo(nb - t + SYS_ALLOC_PADDING, unit);
      && 0 < ssize <= asize && nb + SYS_ALLOC_PADDING <= t + ssize && ssize % 16 == 0
      && (ssize < nb + SYS_ALLOC_PADDING ==>
            var esize := RoundTo(nb + SYS_ALLOC_PADDING - ssize, unit);
              ssize + esize == asize && 0 < esize < t + unit && esize % 16 == 0)
  {
    hide RoundTo;
    var x := nb + SYS_ALLOC_PADDING;
    AskedLess(x, t, unit);
    RoundUpOrWrap(x - t, unit);
    var s := RoundTo(x - t, unit);
    SixteenOf(s, unit);
    if s < x {
      AskedTwice(x, unit, s);
      RoundUpOrWrap(x - s, unit);
      SixteenOf(RoundTo(x - s, unit), unit);
    }
  }

  /** Two extensions in a row are one. */
  lemma GotTwice(granted: set<int>, b: int, n: int, k: int)
    requires n > 0 && k > 0 && New(granted, b, n) && New(granted + Bytes(b, n), b + n, k)
    ensures Got(granted, granted + Bytes(b, n) + Bytes(b + n, k), b, n + k)
  {
    var all, end := granted + Bytes(b, n) + Bytes(b + n, k), b + n + k;
    forall a | b <= a < end ensures !(a in granted) && a in all {
      var had := a in granted + Bytes(b, n);
      assert Holds(b, n, a) || Holds(b + n, k, a);
    }
  }

  /** What was got and given back leaves everything as it was. */
  lemma GotAndGone(granted: set<int>, b: int, n: int)
    requires New(granted, b, n)
    ensures granted + Bytes(b, n) - Bytes(b, n) == granted
  {
    assert granted !! Bytes(b, n);
  }

  lemma NoSpace(m: Mem, h: Shape, granted: set<int>)
    requires h == Shape(map[], {}, map[], 0)
    ensures SpaceOk(m, h, [], map[], granted) && Usable(h, map[]) == map[] && SegTotal([]) + MapTotal(map[]) == 0
  {
    EqualIfSame(Usable(h, map[]), map[]);
  }

  lemma {:induction false} SegTotalNat(segs: seq<Segment>)
    requires forall i | 0 <= i < |segs| :: segs[i].size > 0
    ensures SegTotal(segs) >= 0
  {
    if segs != [] { SegTotalNat(segs[1..]); }
  }

  lemma {:induction false} SizesNat(maps: Mappings, chunks: set<int>)
    requires chunks <= maps.Keys && forall c | c in maps :: maps[c].size > 0
    ensures SizesOf(maps, chunks) >= 0
    decreases chunks
  {
    if c :| c in chunks {
      SizesPick(maps, chunks, c);
      SizesNat(maps, chunks - {c});
    }
  }

  lemma FootprintNat(m: Mem, h: Shape, segs: seq<Segment>, maps: Mappings, granted: set<int>)
    requires TagsOk(m, h) && SpaceOk(m, h, segs, maps, granted)
    ensures SegTotal(segs) + MapTotal(maps) >= 0
  {
    hide TagsOk, SegsOk, MapsOk, HasAll, SegTotal, SizesOf;
    HeldIsSized(m, h, segs, maps);
    SegTotalNat(segs);
    SizesNat(maps, maps.Keys);
  }

  /** The segment of top, and how large top is at most. */
  lemma TopPlace(m: Mem, b: BinState, h: Shape, k: Marks, leastAddr: int, segs: seq<Segment>)
    requires HeapOk(m, b, h, k, leastAddr, {}) && SegsOk(h, segs)
    ensures k.top == h.top && 0 <= k.topsize < LIMIT && (k.top == 0 <==> segs == []) && (k.topsize == 0 <==> segs == [])
    ensures segs != [] ==>
      h.top in h.C && k.topsize == h.C[h.top] >= 8 && segs[0].base <= k.top
      && k.top + k.topsize == segs[0].End() - TOP_FOOT_SIZE
    ensures TagsOk(m, h)
  {
    hide TagsOk, TreeState.Apart, SegsApart, AllRegions, RecordOk;
    CoreTagsOnly(m, b, h, leastAddr);
    if segs != [] {
      TopRegion(m, h, segs);
      HeadFacts(m, h, h.top);
      SegOf(h, segs, 0);
    }
  }

  /** What the contiguous way starts from. */
  lemma BeforeContiguous(m: Mem, b: BinState, h: Shape, k: Marks, leastAddr: int, segs: seq<Segment>, maps: Mappings,
                         granted: set<int>, unit: nat, nb: nat, asize: nat)
    requires HeapOk(m, b, h, k, leastAddr, {}) && 4096 <= unit <= LIMIT && k.topsize <= nb && Asked(nb, unit, asize)
      && unit % 16 == 0
    requires Laid(m, h, leastAddr, segs, maps, granted, unit, false)
    ensures SegTotal(segs) + MapTotal(maps) >= 0 && (k.top == 0 <==> segs == []) && 0 <= k.topsize <= nb
      && (k.topsize == 0 <==> segs == [])
    ensures nb + SYS_ALLOC_PADDING + unit <= WORD && asize < WORD && asize % 16 == 0
    ensures nb + SYS_ALLOC_PADDING <= asize < nb + SYS_ALLOC_PADDING + unit
    ensures segs != [] ==> !segs[0].mmapped
    ensures var ssize := RoundTo(nb - k.topsize + SYS_ALLOC_PADDING, unit);
      && 0 < ssize <= asize && nb + SYS_ALLOC_PADDING <= k.topsize + ssize && ssize % 16 == 0
      && (ssize < nb + SYS_ALLOC_PADDING ==>
            var esize := RoundTo(nb + SYS_ALLOC_PADDING - ssize, unit);
            ssize + esize == asize && 0 < esize < HALF_MAX_SIZE_T && esize % 16 == 0)
  {
    hide TagsOk, SegsOk, MapsOk, HasAll, RoundTo, SegTotal, SizesOf, MarksOk, Spare;
    TopPlace(m, b, h, k, leastAddr, segs);
    FootprintNat(m, h, segs, maps, granted);
    PartialSizes(nb, k.topsize, unit, asize);
  }
}
