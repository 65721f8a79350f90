/** Boundary tags and bins together: the heap invariant, and what each way of cutting, joining and
    marking chunks does to it. */
module HeapState {
  import opened Words
  import opened ChunkMemory
  import opened TreeState
  import opened AllBins
  import opened Chunks

  ghost function Free(h: Shape): set<int> {
    h.C.Keys - h.U
  }

  /** Free chunks that are in no bin. */
  ghost function Spare(b: BinState, h: Shape): set<int> {
    Free(h) - Binned(b)
  }

  /** Tags and bins are correct, and only free chunks other than top are binned. */
  ghost predicate Core(m: Mem, b: BinState, h: Shape, leastAddr: int) {
    && TagsOk(m, h) && BinsOk(m, b, h.C, leastAddr)
    && Binned(b) <= Free(h) && h.top !in Binned(b)
    && (forall p | p in h.C :: p >= leastAddr)
  }

  /** The words a program may use: the payload of every chunk in use, up to and including the
      prev_foot word of the chunk behind it. */
  ghost predicate LiveWord(h: Shape, p: int, a: int) {
    p in h.U && p in h.C && p + 16 <= a < p + h.C[p] + 8
  }

  /** Words outside the regions of the heap and above the static words. */
  ghost predicate Foreign(h: Shape, a: int) {
    a >= HEAP_MIN && forall f | f in h.R :: !(f <= a < h.R[f] + 16)
  }

  /** Where the region of top ends. */
  function TopEnd(h: Shape): int {
    if h.top in h.C then h.top + h.C[h.top] else 0
  }

  /** The used chunk q is still there, and so is the chunk behind it, if there was one. */
  predicate Stays(h: Shape, h': Shape, q: int)
    requires q in h.C
  {
    q in h'.U && q in h'.C && h'.C[q] == h.C[q] && (q + h.C[q] in h.C ==> q + h.C[q] in h'.C)
  }

  /** All payloads but those of X keep their place and contents; foreign memory is left alone. */
  ghost predicate Tame(m: Mem, h: Shape, m': Mem, h': Shape, X: set<int>) {
    && h'.R == h.R && TopEnd(h') == TopEnd(h)
    && (forall q {:trigger Stays(h, h', q)} {:trigger q in h'.U} | q in h.U && q in h.C && q !in X :: Stays(h, h', q))
    && (forall q, a {:trigger LiveWord(h, q, a)} | LiveWord(h, q, a) && q !in X :: Rd(m', a) == Rd(m, a))
    && (forall a {:trigger Foreign(h, a)} | Foreign(h, a) :: Rd(m', a) == Rd(m, a))
  }

  lemma TameTwice(m0: Mem, h0: Shape, m1: Mem, h1: Shape, m2: Mem, h2: Shape, X: set<int>, Y: set<int>)
    requires Tame(m0, h0, m1, h1, X) && Tame(m1, h1, m2, h2, Y)
    ensures Tame(m0, h0, m2, h2, X + Y)
  {
    forall q | q in h0.U && q in h0.C && q !in X + Y ensures Stays(h0, h2, q) {
      assert Stays(h0, h1, q);
      assert Stays(h1, h2, q);
    }
    forall q, a {:trigger LiveWord(h0, q, a)} | LiveWord(h0, q, a) && q !in X + Y ensures Rd(m2, a) == Rd(m0, a) {
      assert Stays(h0, h1, q);
      assert LiveWord(h1, q, a);
    }
    forall a {:trigger Foreign(h0, a)} | Foreign(h0, a) ensures Rd(m2, a) == Rd(m0, a) {
      assert Foreign(h1, a);
    }
  }

  lemma TameLess(m: Mem, h: Shape, m': Mem, h': Shape, X: set<int>, Y: set<int>)
    requires Tame(m, h, m', h', X) && forall q | q in X && q in h.U :: q in Y
    ensures Tame(m, h, m', h', Y)
  {
  }

  // ---------------------------------------------------------------------------------------
  // Facts about neighbours

  lemma ChunkFacts(m: Mem, h: Shape, p: int)
    requires TagsOk(m, h) && p in h.C
    ensures ChunkOk(m, h, p) && HeadOk(m, h, p) && FootOk(m, h, p) && BackOk(m, h, p)
    ensures p >= HEAP_MIN && p != 0
  {
  }

  /** What the head word of a chunk says. */
  lemma HeadFacts(m: Mem, h: Shape, p: int)
    requires TagsOk(m, h) && p in h.C
    ensures var w := Rd(m, p + 8);
      && ChunkSize(w) == h.C[p] && (Cinuse(w) <==> p in h.U) && w == Head(h.C[p], Pinuse(w), p in h.U)
      && (p !in h.U ==> Pinuse(w)) && (Pinuse(w) ==> (w % 4 == 3 <==> p in h.U))
      && (IsInuse(w) <==> p in h.U) && !IsMmapped(w)
    ensures p % 16 == 0 && h.C[p] >= 8 && p >= HEAP_MIN && p + h.C[p] <= WORD
    ensures if p == h.top then h.C[p] % 8 == 0 else h.C[p] >= MIN_CHUNK_SIZE && h.C[p] % 16 == 0
  {
    hide FootOk, BackOk, RegionOk, Apart, Head, ChunkSize, Pinuse, Cinuse, IsInuse, IsMmapped;
    ChunkFacts(m, h, p);
    var w := Rd(m, p + 8);
    HeadWord(h.C[p], Pinuse(w), p in h.U);
  }

  lemma UsedWord(s: int)
    requires s % 16 == 0
    ensures Pinuse(Head(s, true, true)) && Cinuse(Head(s, true, true)) && ChunkSize(Head(s, true, true)) == s
  {
    HeadWord(s, true, true);
  }

  lemma Room(m: Mem, h: Shape, p: int)
    requires TagsOk(m, h) && p in h.C
    ensures h.C[p] >= 8 && p >= HEAP_MIN && p + h.C[p] <= WORD && (p != h.top ==> h.C[p] >= MIN_CHUNK_SIZE)
  {
    hide FootOk, BackOk, RegionOk, Apart, Head, Pinuse;
    ChunkFacts(m, h, p);
  }

  lemma HeadWord(s: int, pinuse: bool, used: bool)
    requires s % 8 == 0
    ensures var w := Head(s, pinuse, used);
      && ChunkSize(w) == s && Pinuse(w) == pinuse && Cinuse(w) == used
      && (IsInuse(w) <==> used || !pinuse) && (IsMmapped(w) <==> !used && !pinuse)
      && (w % 4 == 3 <==> used && pinuse)
  {
    var k := s / 8;
    assert s == 8 * k;
    FlagBits(k, (if pinuse then 1 else 0) + (if used then 2 else 0));
  }

  /** What the head word behind a chunk says. */
  lemma FootFacts(m: Mem, h: Shape, p: int)
    requires TagsOk(m, h) && p in h.C
    ensures var n := p + h.C[p];
      && (n in h.C || IsEnd(h, n)) && Pinuse(Rd(m, n + 8)) == (p in h.U)
      && (p !in h.U && p != h.top ==> Rd(m, n) == h.C[p])
  {
    hide HeadOk, BackOk, RegionOk, Apart;
    ChunkFacts(m, h, p);
  }

  /** What follows a chunk. */
  lemma NextFacts(m: Mem, h: Shape, p: int)
    requires TagsOk(m, h) && p in h.C
    ensures var n := p + h.C[p];
      && (n in h.C || IsEnd(h, n))
      && (n !in h.C && p != h.top ==> p in h.U && Rd(m, n + 8) == FENCEPOST_HEAD)
      && (n !in h.C && p == h.top ==> Rd(m, n + 8) == TOP_FOOT_SIZE)
      && (p !in h.U && n in h.C ==> n in h.U)
      && (p == h.top ==> n !in h.C || n in h.U)
  {
    ChunkFacts(m, h, p);
    var n := p + h.C[p];
    if n in h.C {
      ChunkFacts(m, h, n);
    } else {
      var f :| f in h.R && h.R[f] == n;
      assert RegionOk(m, h, f);
      if h.top in h.C && n == h.top + h.C[h.top] {
        ChunkFacts(m, h, h.top);
        assert p == h.top;
      }
    }
  }

  /** Up to three chunks in a row lie in one region. */
  lemma RunInside(m: Mem, h: Shape, p: int) returns (f: int)
    requires TagsOk(m, h) && p in h.C
    ensures Inside(h, p, f)
    ensures var n := p + h.C[p]; n in h.C ==>
      n + h.C[n] <= h.R[f] && (n + h.C[n] in h.C ==> n + h.C[n] + h.C[n + h.C[n]] <= h.R[f])
  {
    f :| Inside(h, p, f);
    assert RegionOk(m, h, f);
    var n := p + h.C[p];
    if n in h.C {
      StaysInside(m, h, f, n);
      if n + h.C[n] in h.C { StaysInside(m, h, f, n + h.C[n]); }
    }
  }

  lemma StaysInside(m: Mem, h: Shape, f: int, n: int)
    requires TagsOk(m, h) && f in h.R && n in h.C && n <= h.R[f]
    ensures n + h.C[n] <= h.R[f]
  {
    hide ChunkOk;
    assert RegionOk(m, h, f);
  }

  // ---------------------------------------------------------------------------------------
  // A local change keeps the heap

  lemma LocalBins(m: Mem, m': Mem, b: BinState, h: Shape, h': Shape, lo: int, hi: int, f: int, leastAddr: int)
    requires Core(m, b, h, leastAddr) && Local(m, m', h, h', lo, hi, f) && Apart(h'.C) && (hi in h.C || IsEnd(h, hi))
    requires forall p | p in Binned(b) :: !(lo <= p < hi)
    requires hi in Binned(b) ==> forall a | hi + 8 <= a < hi + 16 :: Rd(m', a) == Rd(m, a)
    ensures BinsOk(m', b, h'.C, leastAddr)
  {
    hide BinsOk, ChunkOk, RegionOk;
    BinnedPlaces(m, b, h.C, leastAddr);
    forall p | p in Binned(b) ensures SameChunk(m, m', h.C, h'.C, p) {
      if p > hi { Beyond(m, h, lo, hi, f, p); }
    }
    BinsKeep(m, m', b, h.C, h'.C, leastAddr);
  }

  /** The conditions of a local change, gathered. */
  ghost predicate Step(m: Mem, m': Mem, b: BinState, h: Shape, h': Shape, lo: int, hi: int, f: int) {
    && Local(m, m', h, h', lo, hi, f) && InnerOk(m', h', lo, hi) && BehindOk(m', h, h', hi)
    && TopOk(h')
    && (forall p | p in Binned(b) :: !(lo <= p < hi))
    && (hi in Binned(b) ==> forall a | hi + 8 <= a < hi + 16 :: Rd(m', a) == Rd(m, a))
  }

  lemma StepCore(m: Mem, m': Mem, b: BinState, h: Shape, h': Shape, lo: int, hi: int, f: int, leastAddr: int)
    requires Core(m, b, h, leastAddr) && Step(m, m', b, h, h', lo, hi, f)
    ensures Core(m', b, h', leastAddr)
    ensures forall q, a {:trigger LiveWord(h, q, a)} | LiveWord(h, q, a) && !(lo <= q < hi) :: Rd(m', a) == Rd(m, a)
  {
    hide BinsOk, HeadOk, FootOk, BackOk, RegionOk;
    LocalTags(m, m', h, h', lo, hi, f);
    LocalBins(m, m', b, h, h', lo, hi, f, leastAddr);
    StepBinned(m, m', b, h, h', lo, hi, f, leastAddr);
    forall q, a {:trigger LiveWord(h, q, a)} | LiveWord(h, q, a) && !(lo <= q < hi) ensures Rd(m', a) == Rd(m, a) {
    }
  }

  lemma StepBinned(m: Mem, m': Mem, b: BinState, h: Shape, h': Shape, lo: int, hi: int, f: int, leastAddr: int)
    requires Core(m, b, h, leastAddr) && Step(m, m', b, h, h', lo, hi, f)
    ensures Binned(b) <= Free(h') && h'.top !in Binned(b)
    ensures forall p | p in h'.C :: p >= leastAddr
  {
    hide TagsOk, BinsOk, InnerOk, BehindOk;
    forall p | p in h'.C ensures p >= leastAddr {
      if lo <= p < hi { assert lo >= leastAddr; } else { assert p in h.C; }
    }
    forall p | p in Binned(b) ensures p in Free(h') {
      assert p in Free(h);
    }
  }
}
