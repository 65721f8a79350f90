/** Facts about the heap that the methods of class Heap use. */
module HeapFacts {
  import opened Words
  import opened BinMap
  import opened ChunkMemory
  import opened TreeState
  import opened AllBins
  import opened Chunks
  import opened HeapState
  import opened Recuts
  import opened TagWrites
  import opened HeapBins
  import opened HeapInvariant
  import opened Carving
  import opened Freeing
  import opened Resizing
  import opened Tiling
  import opened HeapModel
  import opened Requests
  import Trie
  import SmallBins

  /** is_small */
  predicate IsSmall(s: nat) {
    s / 8 < 32
  }

  lemma LessSixteens(topsize: int, nb: int)
    requires nb % 16 == 0
    ensures (topsize - nb) % 8 == topsize % 8
  {
  }

  /** A chunk is resized where it is if, and only if, it is large enough or there is enough free space behind it. */
  lemma ResizesWhen(m: Mem, b: BinState, w: Model, leastAddr: int, p: int, nb: int, w': Model, ok: bool)
    requires HeapOk(m, b, w.h, w.k, leastAddr, {}) && Owned(w.h, p) && Resizes(w, p, nb, w', ok)
    ensures ok <==> CanGrow(w.h, p, nb)
  {
    hide Core, Spare, One, Two, Trims, Take;
    var n := p + w.h.C[p];
    CoreTags(m, b, w.h, leastAddr);
    TopUnused(m, w.h);
  }

  lemma TopUnused(m: Mem, h: Shape)
    requires TagsOk(m, h)
    ensures h.top != 0 ==> h.top !in h.U
    ensures 0 !in h.C
  {
  }

  /** The bins, dv and top hold all free chunks. */
  lemma NothingFits(m: Mem, b: BinState, h: Shape, k: Marks, leastAddr: int, nb: nat)
    requires HeapOk(m, b, h, k, leastAddr, {}) && nb > k.dvsize && nb >= k.topsize
    requires nb == MAX_SIZE_T
      || ((forall j: Index | nb <= 8 * j :: b.stacks[j] == []) && forall t | t in b.fifo :: t < nb)
    ensures NoneFits(h, nb)
  {
    hide Core, Binned, TagsOk, BinsOk;
    CoreBins(m, b, h, leastAddr);
    CoreTags(m, b, h, leastAddr);
    forall p | p in h.C && p !in h.U ensures h.C[p] < nb || (p == h.top && h.C[p] == nb) {
      Room(m, h, p);
      if p in Binned(b) {
        if h.C[p] < 256 { SmallPlace(m, b, h.C, leastAddr, p); } else { LargePlace(m, b, h.C, leastAddr, p); }
      } else {
        assert p in Spare(b, h);
      }
    }
  }

  lemma HighAddress(m: Mem, b: BinState, h: Shape, leastAddr: int, p: int)
    requires Core(m, b, h, leastAddr) && p in h.C
    ensures p >= HEAP_MIN
  {
    hide BinsOk, Binned;
    ChunkFacts(m, h, p);
  }

  lemma DvIsNotTop(m: Mem, b: BinState, h: Shape, k: Marks, leastAddr: int)
    requires HeapOk(m, b, h, k, leastAddr, {})
    ensures k.dv != 0 ==> k.dv != h.top && k.dv in k.Held()
  {
  }

  /** A chunk at the front of a smallbin. */
  lemma FirstPlace(m: Mem, b: BinState, C: map<int, int>, leastAddr: int, i: Index)
    requires BinsOk(m, b, C, leastAddr) && b.stacks[i] != []
    ensures var p := b.stacks[i][0]; p in Binned(b) && p in C && C[p] == 8 * i && 32 <= 8 * i < 256 && 8 * i % 16 == 0
  {
    hide TreesOk, SmallBins.BinsOk, Members;
    var p := b.stacks[i][0];
    InSmall(b.stacks, p);
  }

  /** A chunk at the front of a treebin's queue. */
  lemma OldestPlace(m: Mem, b: BinState, C: map<int, int>, leastAddr: int, s: nat)
    requires BinsOk(m, b, C, leastAddr) && s in b.fifo && b.fifo[s] != []
    ensures var p := b.fifo[s][0];
      p in Binned(b) && p in C && C[p] == s && Trie.LargeSize(s) && s >= 256 && p >= leastAddr
  {
    hide SmallBins.SmallsOk, SmallBins.SmallMembers;
    var p := b.fifo[s][0];
    InLarge(b.fifo, p);
    AllLarge(m, b.treemap, C, b.forest, b.fifo);
    TreesPlaces(m, b.treemap, C, b.forest, b.fifo);
    BinnedPlaces(m, b, C, leastAddr);
  }

  lemma CutHead(m: Mem, m': Mem, p: int, nb: int, s: int)
    requires CutWrites(m, m', p, nb, s)
    ensures Rd(m', p + 8) == Head(nb, true, true)
  {
  }

  lemma SameMemory(m: Mem, h: Shape)
    ensures Tame(m, h, m, h, {}) && HeadsKept(m, m, h)
  {
  }

  /** dv and its size. */
  lemma DvSize(m: Mem, b: BinState, h: Shape, k: Marks, leastAddr: int, X: set<int>)
    requires HeapOk(m, b, h, k, leastAddr, X)
    ensures k.dv == 0 <==> k.dvsize == 0
    ensures k.dv != 0 ==> k.dv in h.C && h.C[k.dv] == k.dvsize && k.dvsize >= MIN_CHUNK_SIZE && k.dvsize % 16 == 0
    ensures 0 <= k.dvsize < WORD && k.dvsize % 16 == 0
  {
    hide BinsOk, Binned, RegionOk, BackOk, FootOk, Apart;
    if k.dv != 0 { ChunkFacts(m, h, k.dv); }
  }

  /** top and its size. */
  lemma TopSize(m: Mem, b: BinState, h: Shape, k: Marks, leastAddr: int, X: set<int>)
    requires HeapOk(m, b, h, k, leastAddr, X)
    ensures 0 <= k.topsize < WORD && k.topsize % 8 == 0 && (k.topsize != 0 ==> k.top >= HEAP_MIN)
    ensures k.topsize == 0 <==> k.top == 0
  {
    hide BinsOk, Binned, RegionOk, BackOk, FootOk, Apart;
    if h.top in h.C { ChunkFacts(m, h, h.top); }
  }

  lemma SmallRequestSize(bytes: nat)
    requires bytes <= MAX_SMALL_REQUEST
    ensures Request2Size(bytes) == SizeFor(bytes) <= 240
  {
    SizeForFits(bytes);
    hide PadRequest;
  }

  lemma TooLarge(bytes: nat)
    requires bytes >= MAX_REQUEST
    ensures SizeFor(bytes) == MAX_SIZE_T
  {
  }

  /** A large request that is not too large. */
  lemma LargeRequestSize(bytes: nat)
    requires MAX_SMALL_REQUEST < bytes < MAX_REQUEST
    ensures PadRequest(bytes) == SizeFor(bytes) && Trie.LargeSize(PadRequest(bytes))
  {
    SizeForFits(bytes);
    hide PadRequest;
  }

  lemma EmptyHeap(leastAddr: int)
    ensures HeapOk(map[], BinState(0, seq(32, _ => []), 0, Trie.Forest(map[], seq(32, _ => 0)), map[]),
                   Shape(map[], {}, map[], 0), Marks(0, 0, 0, 0), leastAddr, {})
  {
    hide TreesOk, SmallBins.SmallsOk;
    var h := Shape(map[], {}, map[], 0);
    EmptySmalls(h.C);
    EmptyTrees(h.C);
  }

  lemma EmptySmalls(C: map<int, int>)
    requires C == map[]
    ensures SmallBins.SmallsOk(map[], 0, C, seq(32, _ => []))
  {
    hide Marked, SmallBins.Circle;
    ZeroMap(0);
  }

  lemma EmptyTrees(C: map<int, int>)
    requires C == map[]
    ensures TreesOk(map[], 0, C, Trie.Forest(map[], seq(32, _ => 0)), map[])
  {
    hide Marked;
    ZeroMap(0);
  }

  lemma HeapBinsOk(m: Mem, b: BinState, h: Shape, k: Marks, leastAddr: int, X: set<int>)
    requires HeapOk(m, b, h, k, leastAddr, X)
    ensures BinsOk(m, b, h.C, leastAddr) && Core(m, b, h, leastAddr)
  {
  }

  lemma CoreBins(m: Mem, b: BinState, h: Shape, leastAddr: int)
    requires Core(m, b, h, leastAddr)
    ensures BinsOk(m, b, h.C, leastAddr) && TagsOk(m, h)
  {
  }

  // ---------------------------------------------------------------------------------------
  // The smallbin search

  lemma SmallMarks(m: Mem, b: BinState, C: map<int, int>, leastAddr: int)
    requires BinsOk(m, b, C, leastAddr)
    ensures forall i: Index :: Marked(b.smallmap, i) <==> b.stacks[i] != []
    ensures forall i: Index :: b.stacks[i] != [] ==> i % 2 == 0 && 4 <= i
  {
    hide TreesOk, Marked, SmallBins.Circle;
    forall i: Index | b.stacks[i] != [] ensures i % 2 == 0 && 4 <= i {
      assert b.stacks[i][0] in C;
      assert SmallBins.SmallSize(8 * i);
    }
  }

  lemma NoTrees(m: Mem, b: BinState, C: map<int, int>, leastAddr: int)
    requires BinsOk(m, b, C, leastAddr)
    ensures b.treemap == 0 <==> b.fifo == map[]
  {
    hide SmallBins.SmallsOk, Marked, Trie.Bin, Trie.NodeOk;
    ZeroMap(b.treemap);
    LinksKeys(ViewsOf(m, Large(C)), b.forest, b.fifo);
    if s :| s in b.fifo {
      Trie.UnderRoot(b.forest, s);
    }
    if i: Index :| Marked(b.treemap, i) {
      assert b.forest.roots[i] in b.forest.nodes;
    }
  }

  /** Which bins the two searches of dlmalloc find. */
  lemma SmallSearch(m: Mem, b: BinState, C: map<int, int>, leastAddr: int, nb: nat)
    requires BinsOk(m, b, C, leastAddr) && nb % 16 == 0 && MIN_CHUNK_SIZE <= nb <= 240
    ensures nb / 8 < 31 && 8 * (nb / 8) == nb
    ensures var idx: Index := nb / 8; var bits := SmallBits(b.smallmap, idx);
      && (bits & 3 != 0 ==> Marked(b.smallmap, idx) && b.stacks[idx] != [] && (!bits) & 1 == 0)
      && (bits & 3 == 0 ==> b.stacks[idx] == [])
      && (bits & 3 == 0 && bits != 0 ==>
            LeftSmallBits(b.smallmap, idx) != 0
            && var i := LeastIndex(LeftSmallBits(b.smallmap, idx));
               Marked(b.smallmap, i) && b.stacks[i] != [] && nb < 8 * i
               && forall j: Index | idx <= j < i :: b.stacks[j] == [])
      && (bits == 0 ==> forall j: Index | idx <= j :: b.stacks[j] == [])
  {
    hide SmallBits, LeftSmallBits, Marked, BinsOk, LeastIndex;
    var idx: Index := nb / 8;
    var bits := SmallBits(b.smallmap, idx);
    SmallMarks(m, b, C, leastAddr);
    SmallBitsLow(b.smallmap, idx);
    SmallBitsZero(b.smallmap, idx);
    assert (idx + 1) % 2 == 1;
    if bits & 3 == 0 && bits != 0 {
      LeftSmallBitsFound(b.smallmap, idx);
      LeftSmallBitsSelects(b.smallmap, idx);
    }
  }

  // ---------------------------------------------------------------------------------------
  // Which chunk served

  lemma FromBin(w: Model, nb: nat, w': Model, i: Index)
    requires nb < 256 && 0 <= w.k.dvsize && LeastBin(w, nb, i) && (8 * i == nb || nb > w.k.dvsize)
    requires var p := w.l.stacks[i][0]; p in w.h.C && w.h.C[p] == 8 * i && w' == UseBinned(w, p, nb, true)
    ensures ServesSmall(w, nb, w', w.l.stacks[i][0])
  {
    hide UseBinned;
  }

  lemma FromTree(w: Model, nb: nat, w': Model, s: nat)
    requires nb < 256 && 0 <= w.k.dvsize < nb && s in w.l.fifo && w.l.fifo[s] != [] && nb <= s
    requires forall t | t in w.l.fifo :: s <= t
    requires forall j: Index | nb <= 8 * j :: w.l.stacks[j] == []
    requires var p := w.l.fifo[s][0]; p in w.h.C && w.h.C[p] == s && w' == UseBinned(w, p, nb, true)
    ensures ServesSmall(w, nb, w', w.l.fifo[s][0])
  {
    hide UseBinned;
    assert w.l.fifo != map[];
    assert LeastTree(w, nb, s);
  }

  lemma FromBestFit(w: Model, nb: nat, w': Model, s: nat)
    requires 0 <= w.k.dvsize && s in w.l.fifo && w.l.fifo[s] != [] && nb <= s && (nb <= w.k.dvsize ==> s < w.k.dvsize)
    requires forall t | t in w.l.fifo :: t < nb || s <= t
    requires var p := w.l.fifo[s][0]; p in w.h.C && w.h.C[p] == s && w' == UseBinned(w, p, nb, false)
    ensures ServesLarge(w, nb, w', w.l.fifo[s][0])
  {
    hide UseBinned;
    assert LeastTree(w, nb, s);
  }

  // ---------------------------------------------------------------------------------------
  // Where freeing starts

  lemma DvUnused(m: Mem, b: BinState, h: Shape, k: Marks, leastAddr: int, p: int)
    requires HeapOk(m, b, h, k, leastAddr, {}) && p in h.U && p in h.C
    ensures p != k.dv
  {
    hide Core, Spare;
    Before(m, b, h, k, leastAddr, p);
  }

  /** The free chunk before p was taken out of its bin. */
  lemma FrontTaken(m: Mem, m': Mem, b': BinState, h: Shape, k: Marks, leastAddr: int, lo: int, p: int)
    requires HeapOk(m', b', h, k, leastAddr, {} + {lo}) && HeadsKept(m, m', h) && Joint(h, lo, p) && Owned(h, p)
    requires lo in h.C && lo < p && lo != k.dv && Pinuse(Rd(m, lo + 8))
    ensures Front(m', b', h, k, leastAddr, {lo}, {}, lo, p)
  {
    hide HeapOk, Pinuse, Joint;
    assert {} + {lo} == {lo} + {};
  }

  lemma FrontPlace(m: Mem, b: BinState, h: Shape, k: Marks, leastAddr: int, X: set<int>, lo: int, p: int)
    requires Front(m, b, h, k, leastAddr, X, {}, lo, p)
    ensures p + h.C[p] >= leastAddr && p + h.C[p] in h.C && lo <= p < p + h.C[p] && Pinuse(Rd(m, p + h.C[p] + 8))
  {
    hide HeapOk, Pinuse;
    BehindUsed(m, b, h, k, leastAddr, X, p);
    Behind(m, b, h, k, leastAddr, X, lo, p);
    FrontHeap(m, b, h, k, leastAddr, X, lo, p);
    if lo != p { FrontSize(m, b, h, k, leastAddr, X, lo); }
  }

  lemma UsedBehind(m: Mem, b: BinState, h: Shape, k: Marks, leastAddr: int, X: set<int>, lo: int, p: int)
    requires Front(m, b, h, k, leastAddr, X, {}, lo, p) && p + h.C[p] in h.U
    ensures p + h.C[p] in h.C && p + h.C[p] != k.top
  {
    hide TagsOk, HeapOk;
    FrontSpare(m, b, h, k, leastAddr, X, {}, lo, p);
    TopUnused(m, h);
  }

  /** Behind a chunk in use the PINUSE bit is set. */
  lemma BehindUsed(m: Mem, b: BinState, h: Shape, k: Marks, leastAddr: int, X: set<int>, p: int)
    requires HeapOk(m, b, h, k, leastAddr, X + {}) && p in h.C && p in h.U
    ensures Pinuse(Rd(m, p + h.C[p] + 8)) && h.C[p] > 0
  {
    hide Spare, BinsOk, Binned, MarksOk;
    FootFacts(m, h, p);
    SizesPositive(m, h);
  }

  lemma FrontSize(m: Mem, b: BinState, h: Shape, k: Marks, leastAddr: int, X: set<int>, lo: int)
    requires HeapOk(m, b, h, k, leastAddr, X + {}) && lo in h.C
    ensures h.C[lo] > 0
  {
    hide Spare, BinsOk, Binned;
    SizesPositive(m, h);
  }

  lemma FreeStarts(m: Mem, b: BinState, h: Shape, k: Marks, leastAddr: int, p: int)
    requires HeapOk(m, b, h, k, leastAddr, {}) && Owned(h, p)
    ensures forall q | q in h.C :: h.C[q] > 0
    ensures Tame(m, h, m, h, {})
    ensures Pinuse(Rd(m, p + 8)) ==> FreeStart(h, p) == p && Front(m, b, h, k, leastAddr, {}, {}, p, p) && p != k.dv
    ensures !Pinuse(Rd(m, p + 8)) ==>
      var lo := p - Rd(m, p);
      && lo in h.C && h.C[lo] == Rd(m, p) && lo < p && lo >= leastAddr && Joint(h, lo, p) && FreeStart(h, p) == lo
      && Pinuse(Rd(m, lo + 8)) && (lo != k.dv ==> lo in Binned(b))
      && (lo == k.dv ==> Front(m, b, h, k, leastAddr, {}, {}, lo, p))
      && (lo == k.dv ==> (Rd(m, p + h.C[p] + 8) % 4 == 3 <==> p + h.C[p] in h.U))
  {
    hide Core, Binned, Spare, Pinuse, HeapOk, TagsOk, Tame;
    HeapBinsOk(m, b, h, k, leastAddr, {});
    CoreBins(m, b, h, leastAddr);
    SizesPositive(m, h);
    SameMemory(m, h);
    Before(m, b, h, k, leastAddr, p);
    var none: set<int> := {};
    assert none + none == none;
    if Pinuse(Rd(m, p + 8)) {
      FreeStartIs(m, h, p, p);
      DvUnused(m, b, h, k, leastAddr, p);
    } else {
      var lo := p - Rd(m, p);
      FreeStartIs(m, h, lo, p);
      if lo == k.dv { Behind(m, b, h, k, leastAddr, {}, lo, p); }
    }
  }

  // ---------------------------------------------------------------------------------------
  // Resizing

  /** Freeing the rest of p leaves p alone. */
  lemma RestFreed(m: Mem, h: Shape, m1: Mem, h1: Shape, m2: Mem, h2: Shape, p: int, r: int, s: int)
    requires Tame(m, h, m1, h1, {p}) && Tame(m1, h1, m2, h2, {r}) && r != p && Owned(h1, p) && r !in h.U
    requires Preserved(m, m1, p, s) && s <= h1.C[p]
    ensures Tame(m, h, m2, h2, {p}) && Owned(h2, p) && h2.C[p] == h1.C[p] && Preserved(m, m2, p, s)
  {
    hide Foreign;
    TameTwice(m, h, m1, h1, m2, h2, {p}, {r});
    TameLess(m, h, m2, h2, {p} + {r}, {p});
    assert Stays(h1, h2, p);
    forall a {:trigger Rd(m2, a)} | p + 16 <= a < p + s + 8 ensures Rd(m2, a) == Rd(m, a) {
      assert LiveWord(h1, p, a);
      assert Rd(m1, a) == Rd(m, a);
    }
  }

  /** Inside a used chunk, or behind one, no chunk in use starts. */
  lemma NoUsedInside(m: Mem, b: BinState, h: Shape, k: Marks, leastAddr: int, X: set<int>, p: int, r: int)
    requires HeapOk(m, b, h, k, leastAddr, X) && Owned(h, p) && p < r
    requires r < p + h.C[p] || (p + h.C[p] !in h.U && r < p + h.C[p] + h.C[p + h.C[p]] && h.C[p] > 0)
    ensures r !in h.U
  {
    hide BinsOk, Binned, ChunkOk, RegionOk;
  }

  /** Bin operations leave the payload of p alone. */
  lemma Unmoved(m: Mem, m1: Mem, h: Shape, p: int)
    requires Tame(m, h, m1, h, {}) && p in h.U && p in h.C
    ensures Preserved(m, m1, p, h.C[p])
  {
    hide Foreign;
    forall a {:trigger Rd(m1, a)} | p + 16 <= a < p + h.C[p] + 8 ensures Rd(m1, a) == Rd(m, a) {
      assert LiveWord(h, p, a);
    }
  }

  lemma AfterUnlink(m: Mem, m1: Mem, h: Shape, m2: Mem, h2: Shape, p: int, s: int)
    requires Tame(m, h, m1, h, {}) && Tame(m1, h, m2, h2, {p}) && Preserved(m, m1, p, s) && Preserved(m1, m2, p, s)
    ensures Tame(m, h, m2, h2, {p}) && Preserved(m, m2, p, s)
  {
    hide Tame;
    TameTwice(m, h, m1, h, m2, h2, {}, {p});
    assert {} + {p} == {p};
    forall a {:trigger Rd(m2, a)} | p + 16 <= a < p + s + 8 ensures Rd(m2, a) == Rd(m, a) {
      assert Rd(m1, a) == Rd(m, a);
    }
  }

  lemma BothOf16(m: Mem, b: BinState, h: Shape, k: Marks, leastAddr: int, X: set<int>, oldsize: int, next: int,
                 nb: int, rsize: int)
    requires HeapOk(m, b, h, k, leastAddr, X) && next in k.Held() + X && next in h.C
      && nb + rsize == oldsize + h.C[next] && next != h.top
    requires nb % 16 == 0 && oldsize % 16 == 0
    ensures rsize % 16 == 0
  {
    hide *;
    assert h.C[next] % 16 == 0 by { SpareFacts(m, b, h, k, leastAddr, X, next); }
    Multiple(oldsize, h.C[next]);
    RestOf16(nb, rsize);
  }

  /** What the tags of an owned chunk and of the chunk behind it say. */
  lemma NeighbourFacts(m: Mem, b: BinState, h: Shape, k: Marks, leastAddr: int, p: int)
    requires HeapOk(m, b, h, k, leastAddr, {}) && Owned(h, p)
    ensures ChunkSize(Rd(m, p + 8)) == h.C[p] && IsInuse(Rd(m, p + 8)) && !IsMmapped(Rd(m, p + 8))
    ensures p >= leastAddr && p >= HEAP_MIN && h.C[p] >= MIN_CHUNK_SIZE && p % 16 == 0
    ensures var n := p + h.C[p];
      && n >= leastAddr && Pinuse(Rd(m, n + 8)) && ChunkSize(Rd(m, n + 8)) == h.C[n]
      && (n in h.U <==> Cinuse(Rd(m, n + 8)))
      && (n == k.top ==> n == h.top && n !in h.U && k.topsize == h.C[n])
      && (n == k.dv ==> n !in h.U && k.dvsize == h.C[n] && k.dv != k.top)
      && (n !in h.U && n != k.top && n != k.dv ==> n in Binned(b))
  {
    hide BinsOk, Binned, TagsOk, MarksOk, HeadOk, Head, ChunkSize, Pinuse, Cinuse, IsInuse, IsMmapped, Spare, HeapOk;
    var n := p + h.C[p];
    UsedFacts(m, b, h, k, leastAddr, {}, p);
    HeadFacts(m, h, p);
    FootFacts(m, h, p);
    HeadFacts(m, h, n);
    BehindKind(m, b, h, k, leastAddr, {}, n);
  }

  /** The chunks in use when p was resized where it is. */
  lemma ResizedUse(m: Mem, h: Shape, m': Mem, h': Shape, p: int)
    requires Tame(m, h, m', h', {p}) && h'.U == h.U && p in h.C && p in h.U && p in h'.C && h.U <= h.C.Keys
    ensures UsedMap(h') == UsedMap(h)[p := h'.C[p]]
  {
    hide LiveWord, Foreign;
    forall q | q in h.U && q != p ensures q in h'.C && h'.C[q] == h.C[q] {
      assert Stays(h, h', q);
    }
    EqualIfSame(UsedMap(h'), UsedMap(h)[p := h'.C[p]]);
  }

  // ---------------------------------------------------------------------------------------
  // The chunks in use, afterwards

  lemma DisposeUse(m: Mem, b: BinState, w: Model, leastAddr: int, p: int)
    requires HeapOk(m, b, w.h, w.k, leastAddr, {}) && Owned(w.h, p)
    ensures forall q | q in w.h.C :: w.h.C[q] > 0
    ensures var h' := Freed(w, p).h; h'.U == w.h.U - {p} && UsedMap(h') == UsedMap(w.h) - {p}
  {
    hide Spare, BinsOk, Binned, TagsOk, Freed, UsedMap, MarksOk;
    SizesPositive(m, w.h);
    FreedUse(m, w, p);
  }

  lemma TwoUse(h: Shape, p: int, mid: int, hi: int)
    requires p < mid < hi && p in h.U && p in h.C && hi == p + h.C[p] && mid !in h.U && h.U <= h.C.Keys
    requires forall q | q in h.U && p <= q < hi :: q == p
    ensures var h1 := Two(h, p, mid, hi, true);
      h1.U == h.U + {mid} && UsedMap(h1) == UsedMap(h)[p := mid - p][mid := hi - mid]
  {
    var h1 := Two(h, p, mid, hi, true);
    var a, c := UsedMap(h1), UsedMap(h)[p := mid - p][mid := hi - mid];
    assert h1.U == h.U + {mid};
    assert forall q :: q in a <==> q in c;
    assert forall q | q in a :: a[q] == c[q];
  }

  /** The chunks in use when p was split at mid. */
  lemma SplitUse(m: Mem, b: BinState, h: Shape, k: Marks, leastAddr: int, p: int, mid: int)
    requires HeapOk(m, b, h, k, leastAddr, {}) && p in h.C && Owned(h, p) && p < mid < p + h.C[p]
    ensures mid !in h.U && mid !in UsedMap(h) && p in UsedMap(h)
    ensures var hi := p + h.C[p]; var h1 := Two(h, p, mid, hi, true);
      h1.U == h.U + {mid} && UsedMap(h1) == UsedMap(h)[p := mid - p][mid := hi - mid]
  {
    hide *;
    assert p in h.U && p in h.C by { OwnedIs(h, p); }
    NoUsedInside(m, b, h, k, leastAddr, {}, p, mid);
    UsedRun(m, b, h, k, leastAddr, {}, p);
    UsedFacts(m, b, h, k, leastAddr, {}, p);
    OwnedUse(h, p, mid);
    TwoUse(h, p, mid, p + h.C[p]);
  }

  lemma OwnedIs(h: Shape, p: int)
    requires Owned(h, p)
    ensures p in h.U && p in h.C && p + h.C[p] in h.C
  {
  }

  lemma OwnedUse(h: Shape, p: int, mid: int)
    requires Owned(h, p) && mid !in h.U && UsedIn(h, p, p + h.C[p]) == {p}
    ensures p in h.U && p in UsedMap(h) && mid !in UsedMap(h)
    ensures forall q | q in h.U && p <= q < p + h.C[p] :: q == p
  {
    forall q | q in h.U && p <= q < p + h.C[p] ensures q == p {
      assert q in UsedIn(h, p, p + h.C[p]);
    }
  }

  /** The split, and then the end or the front freed again. */
  lemma SplitBack(u: map<int, int>, p: int, mid: int, s: int, t: int)
    requires mid !in u && p in u && p != mid
    ensures u[p := s][mid := t] - {mid} == u[p := s]
    ensures u[p := s][mid := t] - {p} == (u - {p})[mid := t]
  {
    EqualIfSame(u[p := s][mid := t] - {mid}, u[p := s]);
    EqualIfSame(u[p := s][mid := t] - {p}, (u - {p})[mid := t]);
  }

  lemma LeaderFreed(m: Mem, h: Shape, m1: Mem, h1: Shape, m2: Mem, h2: Shape, p: int, newp: int)
    requires Tame(m, h, m1, h1, {p}) && Tame(m1, h1, m2, h2, {p}) && Owned(h1, newp) && newp != p
    ensures Tame(m, h, m2, h2, {p}) && Owned(h2, newp) && h2.C[newp] == h1.C[newp]
  {
    hide Foreign;
    assert {p} + {p} == {p};
    TameTwice(m, h, m1, h1, m2, h2, {p}, {p});
    assert Stays(h1, h2, newp);
  }

  /** Of the chunk p0, only p with at least nb bytes is still in use. */
  predicate Placed(h0: Shape, p0: int, h: Shape, p: int, nb: int) {
    && p0 in h0.C && Owned(h, p) && nb <= h.C[p] && p0 <= p && p + h.C[p] <= p0 + h0.C[p0]
    && UsedMap(h) == (UsedMap(h0) - {p0})[p := h.C[p]] && (p == p0 || p !in h0.U)
  }

  predicate Aligned(a: int, alignment: int) {
    alignment > 0 && a % alignment == 0
  }

  /** (a + alignment - 1) & -alignment, for an alignment that is a power of two */
  function AlignUp(a: int, alignment: int): int
    requires alignment > 0
  {
    (a + alignment - 1) / alignment * alignment
  }

  /** The place internal_memalign picks is aligned, leaves room for a leader, and is not too far. */
  lemma AlignedSpot(mem: int, alignment: int)
    requires mem % 16 == 0 && alignment % 16 == 0 && alignment >= MIN_CHUNK_SIZE && !Aligned(mem, alignment) && mem >= 0
    ensures var r := AlignUp(mem, alignment);
      && Aligned(r, alignment) && Aligned(r + alignment, alignment)
      && r % 16 == 0 && mem + 16 <= r < mem + alignment
  {
    var q := (mem + alignment - 1) / alignment;
    var r := q * alignment;
    RoundedUp(mem, alignment, q);
    MultipleOfMultiple(q, alignment);
    Sixteens(mem, r);
    ModOfProduct(q, alignment);
  }

  lemma RoundedUp(mem: int, a: int, q: int)
    requires a > 0 && q == (mem + a - 1) / a && mem % a != 0 && mem >= 0
    ensures mem < q * a < mem + a
  {
    var x := mem + a - 1;
    assert x == a * q + x % a;
    assert q * a == a * q;
    if q * a == mem { ModOfProduct(q, a); }
  }

  lemma ModOfProduct(q: int, a: int)
    requires a > 0 && q >= 0
    ensures (q * a) % a == 0 && (q * a + a) % a == 0
  {
    DivMod(q, a, 0);
    DivMod(q + 1, a, 0);
    assert (q + 1) * a == q * a + a;
  }

  lemma MultipleOfMultiple(q: int, a: int)
    requires a % 16 == 0
    ensures (q * a) % 16 == 0
  {
    var c := a / 16;
    assert q * a == 16 * (q * c) by { assert q * (16 * c) == 16 * (q * c); }
  }

  /** The place for the aligned chunk inside the chunk p. */
  lemma LeaderSize(p: int, alignment: int, pos: int)
    requires p % 16 == 0 && alignment % 16 == 0 && alignment >= MIN_CHUNK_SIZE && !Aligned(p + 16, alignment) && p >= 0
    requires var br := AlignUp(p + 16, alignment) - 16; pos == if br - p >= MIN_CHUNK_SIZE then br else br + alignment
    ensures (pos - p) % 16 == 0 && MIN_CHUNK_SIZE <= pos - p < alignment + MIN_CHUNK_SIZE
      && Aligned(pos + 16, alignment) && (pos + 16) % 16 == 0
  {
    hide Aligned, AlignUp;
    AlignedSpot(p + 16, alignment);
    SpotOf16(p, alignment, AlignUp(p + 16, alignment) - 16, pos);
  }

  lemma SpotOf16(p: int, alignment: int, br: int, pos: int)
    requires p % 16 == 0 && alignment % 16 == 0 && (br + 16) % 16 == 0 && (pos == br || pos == br + alignment)
    ensures (pos - p) % 16 == 0 && (pos + 16) % 16 == 0 && (p + 16) % 16 == 0
    ensures br >= p + 16 ==> br - p >= 16
  {
  }

  lemma SetTwice(u: map<int, int>, p: int, s: int, t: int)
    ensures u[p := s][p := t] == u[p := t]
  {
    EqualIfSame(u[p := s][p := t], u[p := t]);
  }

  lemma SameUsedMap(h: Shape, p: int)
    requires p in h.C && p in h.U
    ensures UsedMap(h) == (UsedMap(h) - {p})[p := h.C[p]]
  {
    EqualIfSame(UsedMap(h), (UsedMap(h) - {p})[p := h.C[p]]);
  }

  /** The end is given back after the leader. */
  lemma AlignedTame(m0: Mem, h0: Shape, m1: Mem, h1: Shape, m2: Mem, h2: Shape, p0: int, p: int)
    requires Tame(m0, h0, m1, h1, {p0}) && Tame(m1, h1, m2, h2, {p}) && (p == p0 || p !in h0.U)
    ensures Tame(m0, h0, m2, h2, {p0})
  {
    hide Foreign, LiveWord;
    TameTwice(m0, h0, m1, h1, m2, h2, {p0}, {p});
    TameLess(m0, h0, m2, h2, {p0} + {p}, {p0});
  }

  // ---------------------------------------------------------------------------------------
  // Arrays of pointers to free

  /** The chunks that an array of pointers names. */
  ghost function Listed(s: seq<int>): set<int> {
    set i | 0 <= i < |s| && s[i] != 0 :: s[i] - 16
  }

  predicate OnceEach(s: seq<int>) {
    forall i, j | 0 <= i < j < |s| && s[i] != 0 :: s[i] != s[j]
  }

  lemma SkipNull(s: seq<int>)
    requires s != [] && s[0] == 0 && OnceEach(s)
    ensures OnceEach(s[1..]) && Listed(s[1..]) == Listed(s)
  {
    RestListed(s);
  }

  lemma RestListed(s: seq<int>)
    requires s != [] && OnceEach(s)
    ensures OnceEach(s[1..]) && Listed(s[1..]) == Listed(s) - (if s[0] != 0 then {s[0] - 16} else {})
  {
    var t := s[1..];
    forall x ensures x in Listed(t) <==> x in Listed(s) - (if s[0] != 0 then {s[0] - 16} else {}) {
      if x in Listed(t) {
        var i :| 0 <= i < |t| && t[i] != 0 && t[i] - 16 == x;
        assert s[i + 1] == t[i];
      }
      if x in Listed(s) && (s[0] == 0 || x != s[0] - 16) {
        var i :| 0 <= i < |s| && s[i] != 0 && s[i] - 16 == x;
        assert t[i - 1] == s[i];
      }
    }
  }

  lemma JoinedListed(s: seq<int>, p: int)
    requires |s| > 1 && OnceEach(s) && s[0] == p + 16 && s[0] != 0 && s[1] != 0
    ensures var t := s[1..][0 := p + 16]; OnceEach(t) && Listed(t) == Listed(s) - {s[1] - 16}
  {
    var t := s[1..][0 := p + 16];
    assert forall j | 0 < j < |t| :: t[j] == s[j + 1];
    forall x ensures x in Listed(t) <==> x in Listed(s) - {s[1] - 16} {
      if x in Listed(t) {
        var i :| 0 <= i < |t| && t[i] != 0 && t[i] - 16 == x;
        assert if i == 0 then s[0] == t[i] else s[i + 1] == t[i];
      }
      if x in Listed(s) && x != s[1] - 16 {
        var i :| 0 <= i < |s| && s[i] != 0 && s[i] - 16 == x;
        assert if i == 0 then t[0] == s[0] else t[i - 1] == s[i];
      }
    }
  }

  lemma NothingListed(s: seq<int>)
    requires s == []
    ensures Listed(s) == {} && forall u: map<int, int> :: u - Listed(s) == u
  {
    forall u: map<int, int> ensures u - Listed(s) == u {
      EqualIfSame(u - Listed(s), u);
    }
  }

  /** The chunks in use when p and next were joined. */
  lemma JoinUse(m: Mem, b: BinState, h: Shape, k: Marks, leastAddr: int, p: int, next: int)
    requires HeapOk(m, b, h, k, leastAddr, {}) && Owned(h, p) && next == p + h.C[p] && Owned(h, next)
    ensures var s := h.C[p] + h.C[next]; UsedMap(One(h, p, p + s, true)) == (UsedMap(h) - {p, next})[p := s]
  {
    hide HeapOk, UsedMap, One, Core, TagsOk, MarksOk, Run;
    UsedFacts(m, b, h, k, leastAddr, {}, p);
    UsedFacts(m, b, h, k, leastAddr, {}, next);
    PairRun(m, b, h, k, leastAddr, {}, p, next);
    OneUsedMap(h, p, next, p + h.C[p] + h.C[next]);
  }

  lemma OneUsedMap(h: Shape, p: int, next: int, hi: int)
    requires p in h.C && next in h.C && p < next < hi && UsedIn(h, p, hi) == {p, next} && h.U <= h.C.Keys
    ensures UsedMap(One(h, p, hi, true)) == (UsedMap(h) - {p, next})[p := hi - p]
  {
    forall q | q in h.U && p <= q < hi ensures q == p || q == next {
      assert q in UsedIn(h, p, hi);
    }
    assert next in UsedIn(h, p, hi);
    EqualIfSame(UsedMap(One(h, p, hi, true)), (UsedMap(h) - {p, next})[p := hi - p]);
  }

  // ---------------------------------------------------------------------------------------
  // Programs write to their payloads

  /** A word of a payload is no head word, and prev_foot only of a chunk whose predecessor is in use. */
  lemma PayloadWord(m: Mem, h: Shape, p: int, a: int, q: int)
    requires TagsOk(m, h) && LiveWord(h, p, a) && (q in h.C || IsEnd(h, q))
    ensures a != q + 8 && (a == q ==> q == p + h.C[p])
  {
    hide TagsOk, Head, ChunkSize, Pinuse, Cinuse, IsInuse, IsMmapped;
    HeadFacts(m, h, p);
    ApartOf(m, h);
    if q !in h.C {
      var g :| g in h.R && h.R[g] == q;
      EndPlace(m, h, p, g);
    } else {
      HeadFacts(m, h, q);
      EightToo(q);
    }
    EightToo(p);
    CloseMultiples(q, p, h.C[p]);
  }

  lemma EightToo(x: int)
    requires x % 16 == 0
    ensures x % 8 == 0
  {
  }

  lemma CloseMultiples(q: int, p: int, s: int)
    requires q % 8 == 0 && p % 8 == 0 && s % 8 == 0
    ensures !(p + s < q < p + s + 8)
  {
  }

  lemma EndPlace(m: Mem, h: Shape, p: int, g: int)
    requires TagsOk(m, h) && p in h.C && g in h.R
    ensures (p + h.C[p] <= h.R[g] || h.R[g] + 16 <= p) && h.R[g] % 8 == 0
  {
    hide ChunkOk, Apart;
    assert RegionOk(m, h, g);
  }

  /** Only words of the payload of p differ. */
  ghost predicate OnlyPayload(m: Mem, m': Mem, h: Shape, p: int) {
    forall a {:trigger Rd(m', a)} | !LiveWord(h, p, a) :: Rd(m', a) == Rd(m, a)
  }

  lemma StoredTags(m: Mem, m': Mem, h: Shape, p: int)
    requires TagsOk(m, h) && OnlyPayload(m, m', h, p)
    ensures TagsOk(m', h)
  {
    hide HeadOk, FootOk, BackOk, RegionOk, Apart, OnlyPayload;
    forall q | q in h.C ensures ChunkOk(m', h, q) {
      ChunkFacts(m, h, q);
      StoredChunk(m, m', h, p, q);
    }
    forall f | f in h.R ensures RegionOk(m', h, f) {
      StoredRegion(m, m', h, p, f);
    }
  }

  /** The tag words at a chunk or marker stay; prev_foot if the chunk before it is free. */
  lemma StoredWords(m: Mem, m': Mem, h: Shape, p: int, q: int)
    requires TagsOk(m, h) && OnlyPayload(m, m', h, p) && (q in h.C || IsEnd(h, q))
    ensures Rd(m', q + 8) == Rd(m, q + 8)
    ensures p !in h.C || q != p + h.C[p] ==> Rd(m', q) == Rd(m, q)
  {
    hide RegionOk, BackOk, FootOk;
    forall a | LiveWord(h, p, a) ensures a != q + 8 && (a == q ==> p in h.C && q == p + h.C[p]) {
      PayloadWord(m, h, p, a, q);
    }
  }

  lemma StoredChunk(m: Mem, m': Mem, h: Shape, p: int, q: int)
    requires TagsOk(m, h) && OnlyPayload(m, m', h, p) && q in h.C && ChunkOk(m, h, q)
    ensures ChunkOk(m', h, q)
  {
    hide RegionOk, IsEnd, Apart;
    StoredWords(m, m', h, p, q);
    StoredWords(m, m', h, p, q + h.C[q]);
    if p in h.C {
      ChunkFacts(m, h, p);
      if p + h.C[p] == q + h.C[q] { EndsOnce(m, h, p, q); }
    }
  }

  lemma EndsOnce(m: Mem, h: Shape, p: int, q: int)
    requires TagsOk(m, h) && p in h.C && q in h.C && p + h.C[p] == q + h.C[q]
    ensures p == q
  {
    hide RegionOk, BackOk, FootOk;
    ChunkFacts(m, h, p);
    ChunkFacts(m, h, q);
  }

  lemma StoredRegion(m: Mem, m': Mem, h: Shape, p: int, f: int)
    requires TagsOk(m, h) && OnlyPayload(m, m', h, p) && f in h.R
    ensures RegionOk(m', h, f)
  {
    hide ChunkOk, Apart, OnlyPayload;
    assert RegionOk(m, h, f);
    StoredWords(m, m', h, p, f);
    assert IsEnd(h, h.R[f]);
    StoredWords(m, m', h, p, h.R[f]);
  }

  /** The allocator does not notice what programs write to their payloads. */
  lemma StoredHeap(m: Mem, m': Mem, b: BinState, h: Shape, k: Marks, leastAddr: int, p: int)
    requires HeapOk(m, b, h, k, leastAddr, {}) && OnlyPayload(m, m', h, p)
    ensures HeapOk(m', b, h, k, leastAddr, {})
  {
    hide ChunkOk, RegionOk, BinsOk, Binned, MarksOk, Spare;
    StoredTags(m, m', h, p);
    BinnedPlaces(m, b, h.C, leastAddr);
    forall a | a < HEAP_MIN ensures Rd(m', a) == Rd(m, a) {
    }
    forall q | q in Binned(b) ensures SameChunk(m, m', h.C, h.C, q) {
      assert q in Free(h);
    }
    BinsKeep(m, m', b, h.C, h.C, leastAddr);
  }

}
