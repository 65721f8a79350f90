/** Every heap operation replaces a run of adjacent chunks by one chunk or by two.  These lemmas say
    which tag words that takes. */
module Recuts {
  import opened ChunkMemory
  import opened TreeState
  import opened AllBins
  import opened Chunks
  import opened HeapState

  /** The chunks from lo to hi are a run of whole, unbinned chunks of one region. */
  ghost predicate Run(b: BinState, h: Shape, lo: int, hi: int) {
    && lo in h.C && lo < hi && (hi in h.C || IsEnd(h, hi))
    && (forall p | p in h.C :: p + h.C[p] <= lo || hi <= p || (lo <= p && p + h.C[p] <= hi))
    && (exists f :: Inside(h, lo, f) && hi <= h.R[f])
    && (forall p | p in Binned(b) :: !(lo <= p < hi))
  }

  /** The words between the head of lo and the head of hi may differ. */
  ghost predicate Within(m: Mem, m': Mem, lo: int, hi: int) {
    forall a {:trigger Rd(m', a)} | !(lo + 8 <= a < hi + 16) :: Rd(m', a) == Rd(m, a)
  }

  /** The chunks that do not begin in a run.  (In every map comprehension of this project the else branch
      only says that the comprehension has no values but the ones in its domain.) */
  function Rest(C: map<int, int>, lo: int, hi: int): map<int, int> {
    map p | p in C && !(lo <= p < hi) :: if p in C && !(lo <= p < hi) then C[p] else 0
  }

  /** The run as a single chunk. */
  function One(h: Shape, lo: int, hi: int, used: bool): Shape {
    var C := Rest(h.C, lo, hi)[lo := hi - lo];
    var U := set p | p in h.U && !(lo <= p < hi);
    h.(C := C, U := if used then U + {lo} else U, top := if lo <= h.top < hi then lo else h.top)
  }

  /** The run as a chunk in use up to mid, and another chunk. */
  function Two(h: Shape, lo: int, mid: int, hi: int, used: bool): Shape {
    var C := Rest(h.C, lo, hi)[lo := mid - lo][mid := hi - mid];
    var U := (set p | p in h.U && !(lo <= p < hi)) + {lo};
    h.(C := C, U := if used then U + {mid} else U, top := if lo <= h.top < hi then mid else h.top)
  }

  /** The tag words behind a run whose last chunk, from x, is used or not. */
  ghost predicate Tail(m: Mem, m': Mem, b: BinState, h: Shape, h': Shape, x: int, hi: int, used: bool) {
    && (hi in h.C ==> Rd(m', hi + 8) == Head(h.C[hi], used, hi in h.U) && (!used ==> hi in h.U))
    && (hi !in h.C ==> Rd(m', hi + 8) == EndHead(h', hi) && Pinuse(Rd(m', hi + 8)) == used)
    && (hi in Binned(b) ==> forall a | hi + 8 <= a < hi + 16 :: Rd(m', a) == Rd(m, a))
    && (!used && h'.top != x ==> Rd(m', hi) == hi - x)
    && (h'.top == x ==> hi !in h.C && !used)
  }

  ghost predicate OneTags(m: Mem, m': Mem, b: BinState, h: Shape, lo: int, hi: int, used: bool) {
    var h' := One(h, lo, hi, used);
    var pin := Pinuse(Rd(m, lo + 8));
    && SizeOk(h', lo, hi - lo) && Within(m, m', lo, hi)
    && Rd(m', lo + 8) == Head(hi - lo, pin, used) && (!used ==> pin)
    && (used ==> !(lo <= h.top < hi))
    && Tail(m, m', b, h, h', lo, hi, used)
  }

  ghost predicate TwoTags(m: Mem, m': Mem, b: BinState, h: Shape, lo: int, mid: int, hi: int, used: bool) {
    var h' := Two(h, lo, mid, hi, used);
    && lo < mid < hi && SizeOk(h', lo, mid - lo) && SizeOk(h', mid, hi - mid) && Within(m, m', lo, hi)
    && Rd(m', lo + 8) == Head(mid - lo, Pinuse(Rd(m, lo + 8)), true)
    && Rd(m', mid + 8) == Head(hi - mid, true, used)
    && (used ==> !(lo <= h.top < hi))
    && Tail(m, m', b, h, h', mid, hi, used)
  }

  lemma OneLocal(m: Mem, m': Mem, b: BinState, h: Shape, lo: int, hi: int, used: bool, f: int, leastAddr: int)
    requires Core(m, b, h, leastAddr) && Run(b, h, lo, hi) && Inside(h, lo, f) && hi <= h.R[f] && Within(m, m', lo, hi)
    requires Pinuse(Rd(m', lo + 8)) == Pinuse(Rd(m, lo + 8))
    ensures Local(m, m', h, One(h, lo, hi, used), lo, hi, f)
  {
    hide BinsOk, ChunkOk, RegionOk;
  }

  lemma TwoLocal(m: Mem, m': Mem, b: BinState, h: Shape, lo: int, mid: int, hi: int, used: bool, f: int, leastAddr: int)
    requires Core(m, b, h, leastAddr) && Run(b, h, lo, hi) && Inside(h, lo, f) && hi <= h.R[f] && Within(m, m', lo, hi)
    requires Pinuse(Rd(m', lo + 8)) == Pinuse(Rd(m, lo + 8)) && lo < mid < hi
    ensures Local(m, m', h, Two(h, lo, mid, hi, used), lo, hi, f)
  {
    hide BinsOk, ChunkOk, RegionOk;
  }

  lemma TailBehind(m: Mem, m': Mem, b: BinState, h: Shape, h': Shape, x: int, hi: int, used: bool)
    requires TagsOk(m, h) && Tail(m, m', b, h, h', x, hi, used) && x < hi && (hi in h.C || IsEnd(h, hi))
    requires x in h'.C && h'.C[x] == hi - x && (x in h'.U <==> used) && (hi - x) % 8 == 0
    requires hi in h.C ==>
      hi in h'.C && h'.C[hi] == h.C[hi] && (hi in h'.U <==> hi in h.U) && (hi == h'.top <==> hi == h.top)
    requires h'.R == h.R
    ensures BehindOk(m', h, h', hi) && FootOk(m', h', x)
  {
    hide RegionOk, Apart;
    assert IsEnd(h, hi) ==> IsEnd(h', hi);
    if IsEnd(h, hi) {
      EndNotChunk(m, h, hi);
    } else {
      ChunkBehind(m, m', b, h, h', x, hi, used);
    }
  }

  /** The run ends at a chunk. */
  lemma ChunkBehind(m: Mem, m': Mem, b: BinState, h: Shape, h': Shape, x: int, hi: int, used: bool)
    requires TagsOk(m, h) && Tail(m, m', b, h, h', x, hi, used) && x < hi && hi in h.C
    requires x in h'.C && h'.C[x] == hi - x && (x in h'.U <==> used)
    requires hi in h'.C && h'.C[hi] == h.C[hi] && (hi in h'.U <==> hi in h.U) && (hi == h'.top <==> hi == h.top)
    ensures HeadOk(m', h', hi) && BackOk(m', h', hi) && FootOk(m', h', x)
  {
    hide RegionOk, Apart, Head, Pinuse, Cinuse, ChunkSize, IsInuse, IsMmapped, Binned, EndHead;
    assert ChunkOk(m, h, hi);
    assert Pinuse(Rd(m', hi + 8)) == used;
  }

  lemma EndNotChunk(m: Mem, h: Shape, e: int)
    requires TagsOk(m, h) && IsEnd(h, e)
    ensures e !in h.C && e % 8 == 0
  {
    hide ChunkOk;
    var f :| f in h.R && h.R[f] == e;
    assert RegionOk(m, h, f);
  }

  /** The run after recutting. */
  lemma OneShape(h: Shape, lo: int, hi: int, used: bool)
    requires lo < hi
    ensures var h' := One(h, lo, hi, used);
      && h'.R == h.R && lo in h'.C && h'.C[lo] == hi - lo && (lo in h'.U <==> used)
      && h'.top == (if lo <= h.top < hi then lo else h.top)
      && (forall p | p in h'.C && lo <= p < hi :: p == lo)
  {
  }

  lemma TwoShape(h: Shape, lo: int, mid: int, hi: int, used: bool)
    requires lo < mid < hi
    ensures var h' := Two(h, lo, mid, hi, used);
      && h'.R == h.R && lo in h'.C && h'.C[lo] == mid - lo && lo in h'.U
      && mid in h'.C && h'.C[mid] == hi - mid && (mid in h'.U <==> used)
      && h'.top == (if lo <= h.top < hi then mid else h.top)
      && (forall p | p in h'.C && lo <= p < hi :: p == lo || p == mid)
  {
  }

  lemma OneInner(m: Mem, m': Mem, b: BinState, h: Shape, lo: int, hi: int, used: bool)
    requires TagsOk(m, h) && Run(b, h, lo, hi) && OneTags(m, m', b, h, lo, hi, used)
    requires FootOk(m', One(h, lo, hi, used), lo)
    ensures InnerOk(m', One(h, lo, hi, used), lo, hi)
  {
    hide One, FootOk, BackOk, HeadOk, OneTags;
    assert lo < hi by { RunUnbinned(b, h, lo, hi); }
    OneShape(h, lo, hi, used);
    OneHead(m, m', b, h, One(h, lo, hi, used), lo, hi, used);
  }

  lemma OneHead(m: Mem, m': Mem, b: BinState, h: Shape, h': Shape, lo: int, hi: int, used: bool)
    requires OneTags(m, m', b, h, lo, hi, used) && lo in h'.C && h'.C[lo] == hi - lo && (lo in h'.U <==> used)
    requires h' == One(h, lo, hi, used)
    ensures HeadOk(m', h', lo)
  {
    hide Within, Tail, One, SizeOk;
    SizeOfEights(h', lo, hi - lo);
  }

  lemma TwoInner(m: Mem, m': Mem, b: BinState, h: Shape, lo: int, mid: int, hi: int, used: bool)
    requires TagsOk(m, h) && Run(b, h, lo, hi) && TwoTags(m, m', b, h, lo, mid, hi, used)
    requires FootOk(m', Two(h, lo, mid, hi, used), mid)
    ensures InnerOk(m', Two(h, lo, mid, hi, used), lo, hi)
  {
    hide Two, FootOk, BackOk, HeadOk, Within, Tail, SizeOk, Pinuse, Head;
    TwoShape(h, lo, mid, hi, used);
    var h' := Two(h, lo, mid, hi, used);
    TwoFirst(m, m', b, h, h', lo, mid, hi, used);
    TwoFoot(m, m', b, h, h', lo, mid, hi, used);
    TwoSecond(m, m', b, h, h', lo, mid, hi, used);
  }

  lemma TwoFirst(m: Mem, m': Mem, b: BinState, h: Shape, h': Shape, lo: int, mid: int, hi: int, used: bool)
    requires TwoTags(m, m', b, h, lo, mid, hi, used) && lo in h'.C && h'.C[lo] == mid - lo && lo in h'.U && mid in h'.C
    requires h' == Two(h, lo, mid, hi, used)
    ensures HeadOk(m', h', lo)
  {
    hide Within, Tail, Two, SizeOk;
    SizeOfEights(h', lo, mid - lo);
  }

  lemma TwoFoot(m: Mem, m': Mem, b: BinState, h: Shape, h': Shape, lo: int, mid: int, hi: int, used: bool)
    requires TwoTags(m, m', b, h, lo, mid, hi, used) && lo in h'.C && h'.C[lo] == mid - lo && lo in h'.U && mid in h'.C
    requires h' == Two(h, lo, mid, hi, used)
    ensures FootOk(m', h', lo)
  {
    hide Within, Tail, Two, SizeOk;
    SizeOfEights(h', mid, hi - mid);
  }

  lemma TwoSecond(m: Mem, m': Mem, b: BinState, h: Shape, h': Shape, lo: int, mid: int, hi: int, used: bool)
    requires TwoTags(m, m', b, h, lo, mid, hi, used) && mid in h'.C && h'.C[mid] == hi - mid && (mid in h'.U <==> used)
    requires h' == Two(h, lo, mid, hi, used)
    ensures HeadOk(m', h', mid) && BackOk(m', h', mid)
  {
    hide Within, Tail, Two, SizeOk;
    SizeOfEights(h', mid, hi - mid);
  }

  lemma TailBinned(m: Mem, m': Mem, b: BinState, h: Shape, h': Shape, x: int, hi: int, used: bool)
    requires Tail(m, m', b, h, h', x, hi, used)
    ensures hi in Binned(b) ==> forall a | hi + 8 <= a < hi + 16 :: Rd(m', a) == Rd(m, a)
    ensures h'.top == x ==> !used && hi !in h.C
  {
  }

  lemma OneTopOk(m: Mem, h: Shape, b: BinState, lo: int, hi: int, used: bool)
    requires TagsOk(m, h) && Run(b, h, lo, hi)
    requires One(h, lo, hi, used).top == lo ==> !used && hi !in h.C
    ensures TopOk(One(h, lo, hi, used))
  {
    hide ChunkOk, RegionOk, Binned;
  }

  lemma TwoTopOk(m: Mem, h: Shape, b: BinState, lo: int, mid: int, hi: int, used: bool)
    requires TagsOk(m, h) && Run(b, h, lo, hi) && lo < mid < hi
    requires Two(h, lo, mid, hi, used).top == mid ==> !used && hi !in h.C
    requires Two(h, lo, mid, hi, used).top == mid ==> lo <= h.top < hi
    ensures TopOk(Two(h, lo, mid, hi, used))
  {
    hide ChunkOk, RegionOk, Binned;
  }

  lemma RunUnbinned(b: BinState, h: Shape, lo: int, hi: int)
    requires Run(b, h, lo, hi)
    ensures forall p | p in Binned(b) :: !(lo <= p < hi)
    ensures lo in h.C && lo < hi && exists f :: Inside(h, lo, f) && hi <= h.R[f]
  {
  }

  lemma RegionOf(b: BinState, h: Shape, lo: int, hi: int) returns (f: int)
    requires Run(b, h, lo, hi)
    ensures lo in h.C && f in h.R && Inside(h, lo, f) && hi <= h.R[f]
  {
    hide Binned;
    f :| Inside(h, lo, f) && hi <= h.R[f];
  }

  lemma Stepped(m: Mem, m': Mem, b: BinState, h: Shape, h': Shape, lo: int, hi: int, f: int)
    requires Local(m, m', h, h', lo, hi, f) && InnerOk(m', h', lo, hi) && BehindOk(m', h, h', hi) && TopOk(h')
    requires forall p | p in Binned(b) :: !(lo <= p < hi)
    requires hi in Binned(b) ==> forall a | hi + 8 <= a < hi + 16 :: Rd(m', a) == Rd(m, a)
    ensures Step(m, m', b, h, h', lo, hi, f)
  {
    hide Local, InnerOk, BehindOk, TopOk, Binned;
  }

  lemma CoreTags(m: Mem, b: BinState, h: Shape, leastAddr: int)
    requires Core(m, b, h, leastAddr)
    ensures TagsOk(m, h)
  {
  }

  lemma SizeOfEights(h: Shape, p: int, s: int)
    requires SizeOk(h, p, s)
    ensures s % 8 == 0
  {
  }

  lemma OneTagsFacts(m: Mem, m': Mem, b: BinState, h: Shape, lo: int, hi: int, used: bool)
    requires OneTags(m, m', b, h, lo, hi, used)
    ensures Within(m, m', lo, hi) && Tail(m, m', b, h, One(h, lo, hi, used), lo, hi, used)
    ensures Pinuse(Rd(m', lo + 8)) == Pinuse(Rd(m, lo + 8)) && (hi - lo) % 8 == 0
  {
    hide Within, Tail, One, SizeOk;
    SizeOfEights(One(h, lo, hi, used), lo, hi - lo);
  }

  lemma TwoTagsFacts(m: Mem, m': Mem, b: BinState, h: Shape, lo: int, mid: int, hi: int, used: bool)
    requires TwoTags(m, m', b, h, lo, mid, hi, used)
    ensures Within(m, m', lo, hi) && Tail(m, m', b, h, Two(h, lo, mid, hi, used), mid, hi, used)
    ensures Pinuse(Rd(m', lo + 8)) == Pinuse(Rd(m, lo + 8)) && (hi - mid) % 8 == 0 && lo < mid < hi
  {
    hide Within, Tail, Two, SizeOk;
    SizeOfEights(Two(h, lo, mid, hi, used), lo, mid - lo);
    SizeOfEights(Two(h, lo, mid, hi, used), mid, hi - mid);
  }

  /** Behind the run nothing changes. */
  lemma OneBehind(m: Mem, b: BinState, h: Shape, lo: int, hi: int, used: bool)
    requires Run(b, h, lo, hi)
    ensures hi in h.C || IsEnd(h, hi)
    ensures var h' := One(h, lo, hi, used);
      hi in h.C ==> hi in h'.C && h'.C[hi] == h.C[hi] && (hi in h'.U <==> hi in h.U) && (hi == h'.top <==> hi == h.top)
  {
    hide Binned, IsEnd;
  }

  lemma TwoBehind(m: Mem, b: BinState, h: Shape, lo: int, mid: int, hi: int, used: bool)
    requires Run(b, h, lo, hi) && lo < mid < hi
    ensures hi in h.C || IsEnd(h, hi)
    ensures var h' := Two(h, lo, mid, hi, used);
      hi in h.C ==> hi in h'.C && h'.C[hi] == h.C[hi] && (hi in h'.U <==> hi in h.U) && (hi == h'.top <==> hi == h.top)
  {
    hide Binned, IsEnd;
  }

  /** One chunk for the run. */
  lemma OneCore(m: Mem, m': Mem, b: BinState, h: Shape, lo: int, hi: int, used: bool, leastAddr: int)
    requires Core(m, b, h, leastAddr) && Run(b, h, lo, hi) && OneTags(m, m', b, h, lo, hi, used)
    ensures Core(m', b, One(h, lo, hi, used), leastAddr)
    ensures forall q, a {:trigger LiveWord(h, q, a)} | LiveWord(h, q, a) && !(lo <= q < hi) :: Rd(m', a) == Rd(m, a)
  {
    hide *;
    CoreTags(m, b, h, leastAddr);
    RunUnbinned(b, h, lo, hi);
    OneTagsFacts(m, m', b, h, lo, hi, used);
    OneShape(h, lo, hi, used);
    OneBehind(m, b, h, lo, hi, used);
    var f := RegionOf(b, h, lo, hi);
    var h' := One(h, lo, hi, used);
    OneLocal(m, m', b, h, lo, hi, used, f, leastAddr);
    TailBehind(m, m', b, h, h', lo, hi, used);
    TailBinned(m, m', b, h, h', lo, hi, used);
    OneInner(m, m', b, h, lo, hi, used);
    OneTopOk(m, h, b, lo, hi, used);
    Stepped(m, m', b, h, h', lo, hi, f);
    StepCore(m, m', b, h, h', lo, hi, f, leastAddr);
  }

  /** Two chunks for the run. */
  lemma TwoCore(m: Mem, m': Mem, b: BinState, h: Shape, lo: int, mid: int, hi: int, used: bool, leastAddr: int)
    requires Core(m, b, h, leastAddr) && Run(b, h, lo, hi) && TwoTags(m, m', b, h, lo, mid, hi, used)
    ensures Core(m', b, Two(h, lo, mid, hi, used), leastAddr)
    ensures forall q, a {:trigger LiveWord(h, q, a)} | LiveWord(h, q, a) && !(lo <= q < hi) :: Rd(m', a) == Rd(m, a)
  {
    hide *;
    CoreTags(m, b, h, leastAddr);
    RunUnbinned(b, h, lo, hi);
    TwoTagsFacts(m, m', b, h, lo, mid, hi, used);
    TwoShape(h, lo, mid, hi, used);
    TwoBehind(m, b, h, lo, mid, hi, used);
    var f := RegionOf(b, h, lo, hi);
    var h' := Two(h, lo, mid, hi, used);
    TwoLocal(m, m', b, h, lo, mid, hi, used, f, leastAddr);
    TailBehind(m, m', b, h, h', mid, hi, used);
    TailBinned(m, m', b, h, h', mid, hi, used);
    TwoInner(m, m', b, h, lo, mid, hi, used);
    TwoTopOk(m, h, b, lo, mid, hi, used);
    Stepped(m, m', b, h, h', lo, hi, f);
    StepCore(m, m', b, h, h', lo, hi, f, leastAddr);
  }

  // ---------------------------------------------------------------------------------------
  // Runs of one, two and three chunks

  lemma RunOfOne(m: Mem, b: BinState, h: Shape, p: int)
    requires TagsOk(m, h) && p in h.C && p !in Binned(b) && Binned(b) <= h.C.Keys
    ensures Run(b, h, p, p + h.C[p])
  {
    hide ChunkOk, RegionOk, FootOk, HeadOk, BackOk, Binned;
    NextFacts(m, h, p);
    var f := RunInside(m, h, p);
  }

  lemma RunOfTwo(m: Mem, b: BinState, h: Shape, p: int, n: int)
    requires TagsOk(m, h) && p in h.C && n == p + h.C[p] && n in h.C && Binned(b) <= h.C.Keys
    requires p !in Binned(b) && n !in Binned(b)
    ensures Run(b, h, p, n + h.C[n])
  {
    hide ChunkOk, RegionOk, FootOk, HeadOk, BackOk, Binned;
    NextFacts(m, h, n);
    var f := RunInside(m, h, p);
  }

  lemma RunOfThree(m: Mem, b: BinState, h: Shape, p: int, n: int, o: int)
    requires TagsOk(m, h) && p in h.C && n == p + h.C[p] && n in h.C && o == n + h.C[n] && o in h.C
    requires Binned(b) <= h.C.Keys && p !in Binned(b) && n !in Binned(b) && o !in Binned(b)
    ensures Run(b, h, p, o + h.C[o])
  {
    hide ChunkOk, RegionOk, FootOk, HeadOk, BackOk, Binned;
    NextFacts(m, h, o);
    var f := RunInside(m, h, p);
  }
}
