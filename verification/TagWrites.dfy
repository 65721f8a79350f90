/** The macros that write head and prev_foot words (malloc.c, "Operations on head and foot fields"
    and "macros to set up inuse chunks"), and which recut each combination of them performs. */
module TagWrites {
  import opened Words
  import opened ChunkMemory
  import opened TreeState
  import opened AllBins
  import opened Chunks
  import opened HeapState
  import opened Recuts

  // ---------------------------------------------------------------------------------------
  // The macros

  function WithPinuse(w: int): int {
    if Pinuse(w) then w else w + 1
  }

  lemma PinuseTwice(w: int)
    ensures WithPinuse(WithPinuse(w)) == WithPinuse(w)
  {
  }

  /** clear_pinuse, on a head word */
  function WithoutPinuse(w: int): int {
    if Pinuse(w) then w - 1 else w
  }

  function ClearPinuse(m: Mem, p: int): Mem {
    m[p + 8 := WithoutPinuse(Rd(m, p + 8))]
  }

  /** set_inuse */
  function SetInuse(m: Mem, p: int, s: int): Mem {
    var m1 := m[p + 8 := Head(s, Pinuse(Rd(m, p + 8)), true)];
    m1[p + s + 8 := WithPinuse(Rd(m1, p + s + 8))]
  }

  /** set_inuse_and_pinuse */
  function SetInuseAndPinuse(m: Mem, p: int, s: int): Mem {
    var m1 := m[p + 8 := Head(s, true, true)];
    m1[p + s + 8 := WithPinuse(Rd(m1, p + s + 8))]
  }

  /** set_size_and_pinuse_of_inuse_chunk */
  function SetSizeInuse(m: Mem, p: int, s: int): Mem {
    m[p + 8 := Head(s, true, true)]
  }

  /** set_size_and_pinuse_of_free_chunk */
  function SetSizeFree(m: Mem, p: int, s: int): Mem {
    m[p + 8 := Head(s, true, false)][p + s := s]
  }

  /** set_free_with_pinuse */
  function SetFreeWithPinuse(m: Mem, p: int, s: int, n: int): Mem {
    SetSizeFree(ClearPinuse(m, n), p, s)
  }

  /** Or-ing PINUSE_BIT into a multiple of 8. */
  lemma TopHead(s: int)
    requires s % 8 == 0
    ensures WithPinuse(s) == Head(s, true, false)
  {
  }

  /** The head of top: size | PINUSE_BIT, for a multiple of 8. */
  function SetTopHead(m: Mem, p: int, s: int): Mem {
    m[p + 8 := Head(s, true, false)]
  }

  // ---------------------------------------------------------------------------------------
  // What the words behind a run say

  lemma BehindRun(m: Mem, b: BinState, h: Shape, hi: int, leastAddr: int)
    requires Core(m, b, h, leastAddr) && hi in h.C
    ensures hi % 16 == 0 && hi <= WORD && hi >= HEAP_MIN
    ensures Rd(m, hi + 8) == Head(h.C[hi], Pinuse(Rd(m, hi + 8)), hi in h.U)
    ensures WithPinuse(Rd(m, hi + 8)) == Head(h.C[hi], true, hi in h.U)
    ensures WithoutPinuse(Rd(m, hi + 8)) == Head(h.C[hi], false, hi in h.U)
    ensures hi !in h.U ==> Pinuse(Rd(m, hi + 8))
    ensures hi in h.U ==> hi !in Binned(b) && hi != h.top
    ensures hi != h.top ==> h.C[hi] >= MIN_CHUNK_SIZE
  {
    hide BinsOk, Binned, BackOk, FootOk, RegionOk, Apart;
    ChunkFacts(m, h, hi);
    assert hi in h.U ==> hi !in Free(h);
  }

  /** Where a run starts. */
  lemma RunStart(m: Mem, b: BinState, h: Shape, lo: int, leastAddr: int)
    requires Core(m, b, h, leastAddr) && lo in h.C
    ensures lo % 16 == 0 && lo >= HEAP_MIN
  {
    hide BinsOk, Binned, BackOk, FootOk, RegionOk, Apart;
    ChunkFacts(m, h, lo);
  }

  /** The words of m' and m differ only at the given places. */
  ghost predicate Only(m: Mem, m': Mem, places: set<int>) {
    forall a {:trigger Rd(m', a)} | a !in places :: Rd(m', a) == Rd(m, a)
  }

  /** Behind a used chunk the PINUSE bit is set. */
  lemma TailUsed(m: Mem, m': Mem, b: BinState, h: Shape, h': Shape, x: int, hi: int, leastAddr: int)
    requires Core(m, b, h, leastAddr) && hi in h.C && Rd(m', hi + 8) == WithPinuse(Rd(m, hi + 8))
    requires forall a | hi + 8 < a < hi + 16 :: Rd(m', a) == Rd(m, a)
    requires h'.top != x
    ensures Tail(m, m', b, h, h', x, hi, true)
  {
    hide Core, Binned, Head;
    BehindRun(m, b, h, hi, leastAddr);
  }

  /** Behind a free chunk it is clear, and prev_foot holds the size. */
  lemma TailFree(m: Mem, m': Mem, b: BinState, h: Shape, h': Shape, x: int, hi: int, leastAddr: int)
    requires Core(m, b, h, leastAddr) && hi in h.C && hi in h.U
    requires Rd(m', hi + 8) == WithoutPinuse(Rd(m, hi + 8)) && Rd(m', hi) == hi - x
    requires h'.top != x
    ensures Tail(m, m', b, h, h', x, hi, false)
  {
    hide Core, Binned, WithoutPinuse, Pinuse, Head;
    BehindRun(m, b, h, hi, leastAddr);
  }

  /** Behind top comes the marker of the space kept for segment records. */
  lemma TailTop(m: Mem, m': Mem, b: BinState, h: Shape, h': Shape, x: int, hi: int, leastAddr: int)
    requires Core(m, b, h, leastAddr) && h.top in h.C && hi == h.top + h.C[h.top]
    requires Rd(m', hi + 8) == Rd(m, hi + 8) && h'.top == x && x in h'.C && h'.C[x] == hi - x
    ensures Tail(m, m', b, h, h', x, hi, false) && hi !in h.C && hi % 8 == 0 && hi <= WORD
  {
    hide BinsOk, Binned, ChunkOk, RegionOk, Apart, Spare;
    BehindTop(m, h);
    assert hi in Binned(b) ==> hi in Free(h);
  }

  lemma BehindTop(m: Mem, h: Shape)
    requires TagsOk(m, h) && h.top in h.C
    ensures var n := h.top + h.C[h.top];
      n !in h.C && Rd(m, n + 8) == TOP_FOOT_SIZE && n % 8 == 0 && n <= WORD && h.top < n
  {
    hide Apart, HeadOk, BackOk, RegionOk, Pinuse;
    var n := h.top + h.C[h.top];
    ChunkFacts(m, h, h.top);
    Room(m, h, h.top);
    assert n !in h.C && 0 !in h.C;
    var f :| f in h.R && h.R[f] == n;
    EndOf(m, h, f);
  }

  lemma EndOf(m: Mem, h: Shape, f: int)
    requires TagsOk(m, h) && f in h.R
    ensures h.R[f] % 8 == 0 && Rd(m, h.R[f] + 8) == EndHead(h, h.R[f])
  {
    hide ChunkOk, Apart, EndHead;
    assert RegionOk(m, h, f);
  }

  /** Where a run lies. */
  lemma RunPlace(m: Mem, b: BinState, h: Shape, lo: int, hi: int, leastAddr: int)
    requires Core(m, b, h, leastAddr) && Run(b, h, lo, hi)
    ensures lo in h.C && lo < hi && lo % 16 == 0 && lo >= HEAP_MIN
  {
    hide Core;
    assert lo in h.C && lo < hi;
    RunStart(m, b, h, lo, leastAddr);
  }

  lemma Sixteens(lo: int, hi: int)
    requires lo % 16 == 0 && hi % 16 == 0
    ensures (hi - lo) % 16 == 0
  {
  }

  lemma ChunkSizeOk(h: Shape, lo: int, hi: int)
    requires lo % 16 == 0 && hi % 16 == 0 && lo + MIN_CHUNK_SIZE <= hi <= WORD
    ensures SizeOk(h, lo, hi - lo)
  {
  }

  lemma TopSizeOk(h: Shape, hi: int)
    requires h.top % 16 == 0 && hi % 8 == 0 && h.top < hi <= WORD
    ensures SizeOk(h, h.top, hi - h.top)
  {
  }

  /** One used chunk. */
  lemma OneUsed(m: Mem, m': Mem, b: BinState, h: Shape, lo: int, hi: int, leastAddr: int)
    requires Core(m, b, h, leastAddr) && Run(b, h, lo, hi) && hi in h.C && hi >= lo + MIN_CHUNK_SIZE
      && !(lo <= h.top < hi)
    requires Only(m, m', {lo + 8, hi + 8})
    requires Rd(m', lo + 8) == Head(hi - lo, Pinuse(Rd(m, lo + 8)), true)
    requires Rd(m', hi + 8) == WithPinuse(Rd(m, hi + 8))
    ensures OneTags(m, m', b, h, lo, hi, true)
  {
    hide SizeOk, One, Core, Run, Binned, WithPinuse, Pinuse, Head, Tail;
    BehindRun(m, b, h, hi, leastAddr);
    RunPlace(m, b, h, lo, hi, leastAddr);
    OneShape(h, lo, hi, true);
    ChunkSizeOk(One(h, lo, hi, true), lo, hi);
    TailUsed(m, m', b, h, One(h, lo, hi, true), lo, hi, leastAddr);
  }

  /** Two used chunks. */
  lemma TwoUsed(m: Mem, m': Mem, b: BinState, h: Shape, lo: int, mid: int, hi: int, leastAddr: int)
    requires Core(m, b, h, leastAddr) && Run(b, h, lo, hi) && hi in h.C && !(lo <= h.top < hi)
    requires lo + MIN_CHUNK_SIZE <= mid && mid + MIN_CHUNK_SIZE <= hi && mid % 16 == 0
    requires Only(m, m', {lo + 8, mid + 8, hi + 8})
    requires Rd(m', lo + 8) == Head(mid - lo, Pinuse(Rd(m, lo + 8)), true)
    requires Rd(m', mid + 8) == Head(hi - mid, true, true)
    requires Rd(m', hi + 8) == WithPinuse(Rd(m, hi + 8))
    ensures TwoTags(m, m', b, h, lo, mid, hi, true)
  {
    hide SizeOk, Two, Core, Run, Binned, WithPinuse, Pinuse, Head, Tail;
    BehindRun(m, b, h, hi, leastAddr);
    RunPlace(m, b, h, lo, hi, leastAddr);
    TwoShape(h, lo, mid, hi, true);
    ChunkSizeOk(Two(h, lo, mid, hi, true), lo, mid);
    ChunkSizeOk(Two(h, lo, mid, hi, true), mid, hi);
    TailUsed(m, m', b, h, Two(h, lo, mid, hi, true), mid, hi, leastAddr);
  }

  /** One free chunk before a used one. */
  lemma OneFree(m: Mem, m': Mem, b: BinState, h: Shape, lo: int, hi: int, leastAddr: int)
    requires Core(m, b, h, leastAddr) && Run(b, h, lo, hi) && hi in h.U && hi in h.C && hi >= lo + MIN_CHUNK_SIZE
      && !(lo <= h.top < hi)
    requires Only(m, m', {lo + 8, hi, hi + 8}) && Pinuse(Rd(m, lo + 8))
    requires Rd(m', lo + 8) == Head(hi - lo, true, false)
    requires Rd(m', hi) == hi - lo && Rd(m', hi + 8) == WithoutPinuse(Rd(m, hi + 8))
    ensures OneTags(m, m', b, h, lo, hi, false)
  {
    hide SizeOk, One, Core, Run, Binned, WithoutPinuse, Head, Tail;
    BehindRun(m, b, h, hi, leastAddr);
    RunPlace(m, b, h, lo, hi, leastAddr);
    OneShape(h, lo, hi, false);
    ChunkSizeOk(One(h, lo, hi, false), lo, hi);
    TailFree(m, m', b, h, One(h, lo, hi, false), lo, hi, leastAddr);
  }

  /** A used chunk and a free one before a used one. */
  lemma TwoFree(m: Mem, m': Mem, b: BinState, h: Shape, lo: int, mid: int, hi: int, leastAddr: int)
    requires Core(m, b, h, leastAddr) && Run(b, h, lo, hi) && hi in h.U && hi in h.C && !(lo <= h.top < hi)
    requires lo + MIN_CHUNK_SIZE <= mid && mid + MIN_CHUNK_SIZE <= hi && mid % 16 == 0
    requires Only(m, m', {lo + 8, mid + 8, hi, hi + 8})
    requires Rd(m', lo + 8) == Head(mid - lo, Pinuse(Rd(m, lo + 8)), true)
    requires Rd(m', mid + 8) == Head(hi - mid, true, false)
    requires Rd(m', hi) == hi - mid && Rd(m', hi + 8) == WithoutPinuse(Rd(m, hi + 8))
    ensures TwoTags(m, m', b, h, lo, mid, hi, false)
  {
    hide SizeOk, Two, Core, Run, Binned, WithoutPinuse, Pinuse, Head, Tail;
    BehindRun(m, b, h, hi, leastAddr);
    RunPlace(m, b, h, lo, hi, leastAddr);
    TwoShape(h, lo, mid, hi, false);
    ChunkSizeOk(Two(h, lo, mid, hi, false), lo, mid);
    ChunkSizeOk(Two(h, lo, mid, hi, false), mid, hi);
    TailFree(m, m', b, h, Two(h, lo, mid, hi, false), mid, hi, leastAddr);
  }

  /** The run becomes top. */
  lemma OneTop(m: Mem, m': Mem, b: BinState, h: Shape, lo: int, hi: int, leastAddr: int)
    requires Core(m, b, h, leastAddr) && Run(b, h, lo, hi) && h.top in h.C && lo <= h.top && hi == h.top + h.C[h.top]
    requires Only(m, m', {lo + 8}) && Pinuse(Rd(m, lo + 8)) && hi > lo
    requires Rd(m', lo + 8) == Head(hi - lo, true, false)
    ensures OneTags(m, m', b, h, lo, hi, false)
  {
    hide SizeOk, One, Core, Run, Binned, Head, Tail;
    RunPlace(m, b, h, lo, hi, leastAddr);
    TopBelow(m, b, h, leastAddr);
    OneShape(h, lo, hi, false);
    TopSizeOk(One(h, lo, hi, false), hi);
    TailTop(m, m', b, h, One(h, lo, hi, false), lo, hi, leastAddr);
  }

  /** The run becomes a used chunk and top. */
  lemma TwoTop(m: Mem, m': Mem, b: BinState, h: Shape, lo: int, mid: int, hi: int, leastAddr: int)
    requires Core(m, b, h, leastAddr) && Run(b, h, lo, hi) && h.top in h.C && lo <= h.top && hi == h.top + h.C[h.top]
    requires lo + MIN_CHUNK_SIZE <= mid < hi && mid % 16 == 0
    requires Only(m, m', {lo + 8, mid + 8})
    requires Rd(m', lo + 8) == Head(mid - lo, Pinuse(Rd(m, lo + 8)), true)
    requires Rd(m', mid + 8) == Head(hi - mid, true, false)
    ensures TwoTags(m, m', b, h, lo, mid, hi, false)
  {
    hide SizeOk, Two, Core, Run, Binned, Pinuse, Head, Tail;
    RunPlace(m, b, h, lo, hi, leastAddr);
    TopBelow(m, b, h, leastAddr);
    TwoShape(h, lo, mid, hi, false);
    ChunkSizeOk(Two(h, lo, mid, hi, false), lo, mid);
    TopSizeOk(Two(h, lo, mid, hi, false), hi);
    TailTop(m, m', b, h, Two(h, lo, mid, hi, false), mid, hi, leastAddr);
  }

  lemma TopPinuse(m: Mem, h: Shape)
    requires TagsOk(m, h) && h.top in h.C
    ensures Pinuse(Rd(m, h.top + 8)) && h.top !in h.U
  {
    hide FootOk, BackOk, RegionOk, Apart, Head, Pinuse;
    ChunkFacts(m, h, h.top);
  }

  lemma TopBelow(m: Mem, b: BinState, h: Shape, leastAddr: int)
    requires Core(m, b, h, leastAddr) && h.top in h.C
    ensures h.top < h.top + h.C[h.top] <= WORD && (h.top + h.C[h.top]) % 8 == 0 && h.top !in h.U
    ensures Pinuse(Rd(m, h.top + 8))
  {
    hide BinsOk, Binned, ChunkOk, RegionOk, Apart, Head, Pinuse;
    BehindTop(m, h);
    TopPinuse(m, h);
  }
}
