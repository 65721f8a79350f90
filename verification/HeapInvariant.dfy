/** The invariant of malloc_state: besides tags and bins, where the free chunks are that no bin holds
    (malloc.c, do_check_malloc_state); and what an operation may do to the memory of the program. */
module HeapInvariant {
  import opened ChunkMemory
  import opened TreeState
  import opened AllBins
  import opened Chunks
  import opened HeapState
  import opened Recuts
  /** The dv and top fields. */
  datatype Marks = Marks(dv: int, dvsize: int, top: int, topsize: int) {
    function Held(): set<int> {
      {dv, top} - {0}
    }
  }

  ghost predicate MarksOk(h: Shape, k: Marks) {
    && k.top == h.top && k.topsize == (if h.top in h.C then h.C[h.top] else 0)
    && (k.dv == 0 ==> k.dvsize == 0)
    && (k.dv != 0 ==> k.dv in h.C && k.dv !in h.U && k.dv != h.top && h.C[k.dv] == k.dvsize)
  }

  /** A free chunk is in exactly one bin, or it is dv, or top, or one of the chunks X that an operation
      is working on. */
  ghost predicate HeapOk(m: Mem, b: BinState, h: Shape, k: Marks, leastAddr: int, X: set<int>) {
    && Core(m, b, h, leastAddr) && MarksOk(h, k)
    && Spare(b, h) == k.Held() + X && X !! {k.dv, k.top, 0}
  }

  // ---------------------------------------------------------------------------------------
  // Recuts

  ghost function Outside(S: set<int>, lo: int, hi: int): set<int> {
    set p | p in S && !(lo <= p < hi)
  }

  /** The used chunks of a run. */
  ghost function UsedIn(h: Shape, lo: int, hi: int): set<int> {
    set p | p in h.U && lo <= p < hi
  }

  lemma OneSpare(b: BinState, h: Shape, lo: int, hi: int, used: bool)
    requires Run(b, h, lo, hi)
    ensures Spare(b, One(h, lo, hi, used)) == Outside(Spare(b, h), lo, hi) + (if used then {} else {lo})
  {
    hide Binned;
  }

  lemma TwoSpare(b: BinState, h: Shape, lo: int, mid: int, hi: int, used: bool)
    requires Run(b, h, lo, hi) && lo < mid < hi
    ensures Spare(b, Two(h, lo, mid, hi, used)) == Outside(Spare(b, h), lo, hi) + (if used then {} else {mid})
  {
    hide Binned;
  }

  lemma WithinForeign(m: Mem, m': Mem, b: BinState, h: Shape, lo: int, hi: int)
    requires Run(b, h, lo, hi) && Within(m, m', lo, hi)
    ensures forall a {:trigger Foreign(h, a)} | Foreign(h, a) :: Rd(m', a) == Rd(m, a)
  {
    hide Binned;
    var f :| Inside(h, lo, f) && hi <= h.R[f];
  }

  /** The chunks in use outside a run stay. */
  lemma OneStays(m: Mem, b: BinState, h: Shape, lo: int, hi: int, used: bool)
    requires TagsOk(m, h) && Run(b, h, lo, hi)
    ensures forall q | q in h.U && q in h.C && !(lo <= q < hi) :: Stays(h, One(h, lo, hi, used), q)
  {
    hide Binned, IsEnd, RegionOk, BackOk, FootOk, Apart;
    forall q | q in h.C ensures h.C[q] > 0 { ChunkFacts(m, h, q); }
  }

  lemma TwoStays(m: Mem, b: BinState, h: Shape, lo: int, mid: int, hi: int, used: bool)
    requires TagsOk(m, h) && Run(b, h, lo, hi) && lo < mid < hi
    ensures forall q | q in h.U && q in h.C && !(lo <= q < hi) :: Stays(h, Two(h, lo, mid, hi, used), q)
  {
    hide Binned, IsEnd, RegionOk, BackOk, FootOk, Apart;
    forall q | q in h.C ensures h.C[q] > 0 { ChunkFacts(m, h, q); }
  }

  /** A run that ends behind top ends where top does. */
  lemma RunTopEnd(m: Mem, b: BinState, h: Shape, lo: int, hi: int)
    requires TagsOk(m, h) && Run(b, h, lo, hi) && lo <= h.top < hi && hi !in h.C
    ensures TopEnd(h) == hi
  {
    hide ChunkOk, RegionOk, Binned, Apart;
    var f := RegionOf(b, h, lo, hi);
    assert h.top in h.C by { TopIn(m, b, h, lo, hi); }
    HeadFacts(m, h, h.top);
    NextFacts(m, h, h.top);
    FootFacts(m, h, h.top);
    var n := h.top + h.C[h.top];
    if n < hi {
      var k :| k in h.R && h.R[k] == n;
      assert f <= lo;
      OneEnd(m, h, f, k);
    }
  }

  lemma TopIn(m: Mem, b: BinState, h: Shape, lo: int, hi: int)
    requires TagsOk(m, h) && Run(b, h, lo, hi) && lo <= h.top
    ensures h.top in h.C && h.top + h.C[h.top] !in h.C
  {
    hide ChunkOk, RegionOk, Binned, Apart;
    assert lo in h.C;
    HeadFacts(m, h, lo);
  }

  lemma OneTopEnd(m: Mem, b: BinState, h: Shape, lo: int, hi: int, used: bool)
    requires TagsOk(m, h) && Run(b, h, lo, hi) && (lo <= h.top < hi ==> hi !in h.C)
    ensures TopEnd(One(h, lo, hi, used)) == TopEnd(h)
  {
    hide ChunkOk, RegionOk, Binned, Apart;
    if lo <= h.top < hi { RunTopEnd(m, b, h, lo, hi); }
    assert lo in h.C;
  }

  lemma TwoTopEnd(m: Mem, b: BinState, h: Shape, lo: int, mid: int, hi: int, used: bool)
    requires TagsOk(m, h) && Run(b, h, lo, hi) && lo < mid < hi && (lo <= h.top < hi ==> hi !in h.C)
    ensures TopEnd(Two(h, lo, mid, hi, used)) == TopEnd(h)
  {
    hide ChunkOk, RegionOk, Binned, Apart;
    if lo <= h.top < hi { RunTopEnd(m, b, h, lo, hi); }
    assert lo in h.C;
  }

  lemma OneTame(m: Mem, m': Mem, b: BinState, h: Shape, lo: int, hi: int, used: bool)
    requires TagsOk(m, h) && Run(b, h, lo, hi) && Within(m, m', lo, hi) && (lo <= h.top < hi ==> hi !in h.C)
    requires forall q, a {:trigger LiveWord(h, q, a)} | LiveWord(h, q, a) && !(lo <= q < hi) :: Rd(m', a) == Rd(m, a)
    ensures Tame(m, h, m', One(h, lo, hi, used), UsedIn(h, lo, hi))
  {
    hide Run, Foreign, Within, Stays, TagsOk, TopEnd;
    WithinForeign(m, m', b, h, lo, hi);
    OneTopEnd(m, b, h, lo, hi, used);
    OneStays(m, b, h, lo, hi, used);
  }

  lemma TwoTame(m: Mem, m': Mem, b: BinState, h: Shape, lo: int, mid: int, hi: int, used: bool)
    requires TagsOk(m, h) && Run(b, h, lo, hi) && Within(m, m', lo, hi) && lo < mid < hi
      && (lo <= h.top < hi ==> hi !in h.C)
    requires forall q, a {:trigger LiveWord(h, q, a)} | LiveWord(h, q, a) && !(lo <= q < hi) :: Rd(m', a) == Rd(m, a)
    ensures Tame(m, h, m', Two(h, lo, mid, hi, used), UsedIn(h, lo, hi))
  {
    hide Run, Foreign, Within, Stays, TagsOk, TopEnd;
    WithinForeign(m, m', b, h, lo, hi);
    TwoTopEnd(m, b, h, lo, mid, hi, used);
    TwoStays(m, b, h, lo, mid, hi, used);
  }

  lemma OneTailTop(m: Mem, m': Mem, b: BinState, h: Shape, lo: int, hi: int, used: bool)
    requires OneTags(m, m', b, h, lo, hi, used)
    ensures lo <= h.top < hi ==> hi !in h.C
  {
    hide Within, SizeOk, Binned;
  }

  lemma TwoTailTop(m: Mem, m': Mem, b: BinState, h: Shape, lo: int, mid: int, hi: int, used: bool)
    requires TwoTags(m, m', b, h, lo, mid, hi, used)
    ensures lo <= h.top < hi ==> hi !in h.C
  {
    hide Within, SizeOk, Binned;
  }

  /** The heap after a run became one chunk. */
  lemma OneHeap(m: Mem, m': Mem, b: BinState, h: Shape, k: Marks, leastAddr: int, X: set<int>,
                lo: int, hi: int, used: bool, k': Marks, X': set<int>)
    requires HeapOk(m, b, h, k, leastAddr, X) && Run(b, h, lo, hi) && OneTags(m, m', b, h, lo, hi, used)
    requires MarksOk(One(h, lo, hi, used), k') && X' !! {k'.dv, k'.top, 0}
    requires Outside(k.Held() + X, lo, hi) + (if used then {} else {lo}) == k'.Held() + X'
    ensures HeapOk(m', b, One(h, lo, hi, used), k', leastAddr, X')
    ensures Tame(m, h, m', One(h, lo, hi, used), UsedIn(h, lo, hi))
  {
    hide Core, Run, One, Tail, Spare, MarksOk, Binned, UsedIn, Outside, SizeOk, Within;
    CoreTags(m, b, h, leastAddr);
    OneTailTop(m, m', b, h, lo, hi, used);
    OneCore(m, m', b, h, lo, hi, used, leastAddr);
    OneSpare(b, h, lo, hi, used);
    OneTame(m, m', b, h, lo, hi, used);
  }

  /** The heap after a run became two chunks. */
  lemma TwoHeap(m: Mem, m': Mem, b: BinState, h: Shape, k: Marks, leastAddr: int, X: set<int>,
                lo: int, mid: int, hi: int, used: bool, k': Marks, X': set<int>)
    requires HeapOk(m, b, h, k, leastAddr, X) && Run(b, h, lo, hi) && TwoTags(m, m', b, h, lo, mid, hi, used)
    requires MarksOk(Two(h, lo, mid, hi, used), k') && X' !! {k'.dv, k'.top, 0}
    requires Outside(k.Held() + X, lo, hi) + (if used then {} else {mid}) == k'.Held() + X'
    ensures HeapOk(m', b, Two(h, lo, mid, hi, used), k', leastAddr, X')
    ensures Tame(m, h, m', Two(h, lo, mid, hi, used), UsedIn(h, lo, hi))
  {
    hide Core, Run, Two, Tail, Spare, MarksOk, Binned, UsedIn, Outside, SizeOk, Within;
    CoreTags(m, b, h, leastAddr);
    TwoTailTop(m, m', b, h, lo, mid, hi, used);
    TwoCore(m, m', b, h, lo, mid, hi, used, leastAddr);
    TwoSpare(b, h, lo, mid, hi, used);
    TwoTame(m, m', b, h, lo, mid, hi, used);
  }
}
