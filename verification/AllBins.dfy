/** The two kinds of bins side by side in one memory: each leaves the other alone, and both survive
    changes to the heap that do not touch the chunks they hold. */
module AllBins {
  import opened BinMap
  import opened ChunkMemory
  import opened TreeLinks
  import opened TreeState
  import Trie
  import SmallBins

  /** The state of all bins. */
  datatype BinState = BinState(smallmap: bv32, stacks: SmallBins.Stacks, treemap: bv32, forest: Trie.Forest, fifo: Fifo)

  ghost predicate BinsOk(m: Mem, b: BinState, C: map<int, int>, leastAddr: int) {
    && SmallBins.SmallsOk(m, b.smallmap, C, b.stacks) && SmallBins.SmallReachable(b.stacks, leastAddr)
    && TreesOk(m, b.treemap, C, b.forest, b.fifo) && Reachable(b.fifo, leastAddr)
  }

  /** All chunks in a bin. */
  ghost function Binned(b: BinState): set<int> {
    SmallBins.SmallMembers(b.stacks) + Members(b.fifo)
  }

  /** Above the static words, only the chunks in free changed, and they only behind their header. */
  ghost predicate LinksOnly(m: Mem, m': Mem, C: map<int, int>, free: set<int>) {
    && free <= C.Keys
    && forall a {:trigger Rd(m', a)} ::
         a >= HEAP_MIN && (forall p | p in free :: !(p + 16 <= a < p + C[p])) ==> Rd(m', a) == Rd(m, a)
  }

  /** The chunk p and the words from its head to its end are the same. */
  ghost predicate SameChunk(m: Mem, m': Mem, C: map<int, int>, C': map<int, int>, p: int) {
    && p in C && p in C' && C'[p] == C[p]
    && forall a {:trigger Rd(m', a)} | p + 8 <= a < p + C[p] :: Rd(m', a) == Rd(m, a)
  }

  // ---------------------------------------------------------------------------------------
  // Bins survive changes elsewhere

  lemma SmallsKeep(m: Mem, m': Mem, smallmap: bv32, C: map<int, int>, C': map<int, int>, S: SmallBins.Stacks)
    requires SmallBins.SmallsOk(m, smallmap, C, S) && Apart(C')
    requires forall p | p in SmallBins.SmallMembers(S) :: SameChunk(m, m', C, C', p)
    requires forall a | SMALLBINS <= a < SmallBins.SMALL_END :: Rd(m', a) == Rd(m, a)
    ensures SmallBins.SmallsOk(m', smallmap, C', S)
  {
    hide Marked, Apart, SmallBins.Circle;
    StacksKeep(m, m', C, C', S);
    forall i: Index | S[i] != []
      ensures SmallBins.Circle(SmallBins.PairsOf(m', SmallBins.Linkable(C')), [SmallBins.BinHeader(i)] + S[i])
    {
      SmallRingKeeps(m, m', C, C', S, i);
    }
  }

  lemma StacksKeep(m: Mem, m': Mem, C: map<int, int>, C': map<int, int>, S: SmallBins.Stacks)
    requires SmallBins.StacksPlaced(C, S)
    requires forall p | p in SmallBins.SmallMembers(S) :: SameChunk(m, m', C, C', p)
    ensures SmallBins.StacksPlaced(C', S)
  {
    forall i: Index ensures SmallBins.Placed(C', S[i], i) {
      assert SmallBins.Placed(C, S[i], i);
      forall k | 0 <= k < |S[i]| ensures SameChunk(m, m', C, C', S[i][k]) {
        assert S[i][k] in SmallBins.SmallMembers(S);
      }
    }
  }

  lemma SmallRingKeeps(m: Mem, m': Mem, C: map<int, int>, C': map<int, int>, S: SmallBins.Stacks, i: Index)
    requires SmallBins.StacksPlaced(C, S)
    requires forall p | p in SmallBins.SmallMembers(S) :: SameChunk(m, m', C, C', p)
    requires forall a | SMALLBINS <= a < SmallBins.SMALL_END :: Rd(m', a) == Rd(m, a)
    requires SmallBins.Circle(SmallBins.PairsOf(m, SmallBins.Linkable(C)), [SmallBins.BinHeader(i)] + S[i])
    ensures SmallBins.Circle(SmallBins.PairsOf(m', SmallBins.Linkable(C')), [SmallBins.BinHeader(i)] + S[i])
  {
    var N := [SmallBins.BinHeader(i)] + S[i];
    var V, V' := SmallBins.PairsOf(m, SmallBins.Linkable(C)), SmallBins.PairsOf(m', SmallBins.Linkable(C'));
    forall k | 0 <= k < |N| ensures N[k] in V && N[k] in V' && V'[N[k]] == V[N[k]] {
      if k > 0 {
        assert N[k] == S[i][k - 1] && S[i][k - 1] in SmallBins.SmallMembers(S);
      }
    }
  }

  lemma TreesKeep(m: Mem, m': Mem, treemap: bv32, C: map<int, int>, C': map<int, int>, f: Trie.Forest, q: Fifo)
    requires TreesOk(m, treemap, C, f, q) && Apart(C')
    requires forall p | p in Members(q) :: SameChunk(m, m', C, C', p)
    requires forall a | TREEBINS <= a < TREEBINS + 256 :: Rd(m', a) == Rd(m, a)
    ensures TreesOk(m', treemap, C', f, q)
  {
    hide Marked, Apart, LinksOk, ViewsOf, Trie.Ok, Reachable, SameChunk, Trie.LargeSize, Trie.Bin;
    AllLarge(m, treemap, C, f, q);
    TreePlacesKeep(m, m', C, C', q);
    LinksFrame(ViewsOf(m, Large(C)), f, q, ViewsOf(m', Large(C')));
  }

  lemma TreePlacesKeep(m: Mem, m': Mem, C: map<int, int>, C': map<int, int>, q: Fifo)
    requires Places(C, q) && HeadsOk(m, q) && forall s | s in q :: Trie.LargeSize(s)
    requires forall p | p in Members(q) :: SameChunk(m, m', C, C', p)
    ensures Places(C', q) && HeadsOk(m', q)
    ensures forall s | s in q :: forall k | 0 <= k < |q[s]| ::
      q[s][k] in Large(C) && q[s][k] in Large(C')
      && ViewsOf(m', Large(C'))[q[s][k]] == ViewsOf(m, Large(C))[q[s][k]]
  {
    forall s, k | s in q && 0 <= k < |q[s]| ensures SameChunk(m, m', C, C', q[s][k]) && C[q[s][k]] == s {
      assert q[s][k] in Members(q);
    }
  }

  /** The bins only depend on the chunks they hold and on the static words. */
  lemma BinsKeep(m: Mem, m': Mem, b: BinState, C: map<int, int>, C': map<int, int>, leastAddr: int)
    requires BinsOk(m, b, C, leastAddr) && Apart(C')
    requires forall p | p in Binned(b) :: SameChunk(m, m', C, C', p)
    requires forall a | a < HEAP_MIN :: Rd(m', a) == Rd(m, a)
    ensures BinsOk(m', b, C', leastAddr)
  {
    hide SmallBins.SmallsOk, TreesOk, Apart, SameChunk;
    SmallsKeep(m, m', b.smallmap, C, C', b.stacks);
    TreesKeep(m, m', b.treemap, C, C', b.forest, b.fifo);
  }

  // ---------------------------------------------------------------------------------------
  // One kind of bin does not disturb the other

  lemma BinnedPlaces(m: Mem, b: BinState, C: map<int, int>, leastAddr: int)
    requires BinsOk(m, b, C, leastAddr)
    ensures Binned(b) <= C.Keys && Apart(C)
    ensures forall p | p in SmallBins.SmallMembers(b.stacks) :: p in C && SmallBins.SmallSize(C[p])
    ensures forall p | p in Members(b.fifo) :: p in C && Trie.LargeSize(C[p])
    ensures forall p | p in Binned(b) :: p >= leastAddr
  {
    hide Trie.LargeSize;
    AllLarge(m, b.treemap, C, b.forest, b.fifo);
  }

  lemma TouchedElsewhere(m: Mem, m': Mem, C: map<int, int>, free: set<int>, lo: int, hi: int, p: int)
    requires Touched(m, m', C, free, lo, hi) && Apart(C) && p in C && p !in free && hi <= HEAP_MIN
    ensures SameChunk(m, m', C, C, p)
  {
    forall a | p + 8 <= a < p + C[p] ensures Rd(m', a) == Rd(m, a) {
      forall r | r in free ensures !(r + 16 <= a < r + C[r]) {
      }
    }
  }

  /** After an operation on the smallbins. */
  lemma AfterSmall(m: Mem, m': Mem, b: BinState, b': BinState, C: map<int, int>, leastAddr: int, free: set<int>)
    requires BinsOk(m, b, C, leastAddr) && Touched(m, m', C, free, SMALLBINS, SmallBins.SMALL_END)
    requires SmallBins.SmallsOk(m', b'.smallmap, C, b'.stacks) && SmallBins.SmallReachable(b'.stacks, leastAddr)
    requires b' == b.(smallmap := b'.smallmap, stacks := b'.stacks)
    requires forall p | p in free :: p in C && SmallBins.SmallSize(C[p])
    ensures BinsOk(m', b', C, leastAddr) && LinksOnly(m, m', C, free)
  {
    hide SmallBins.SmallsOk, TreesOk, SameChunk;
    BinnedPlaces(m, b, C, leastAddr);
    forall p | p in Members(b.fifo) ensures SameChunk(m, m', C, C, p) {
      TouchedElsewhere(m, m', C, free, SMALLBINS, SmallBins.SMALL_END, p);
    }
    TreesKeep(m, m', b.treemap, C, C, b.forest, b.fifo);
  }

  /** After an operation on the treebins. */
  lemma AfterTree(m: Mem, m': Mem, b: BinState, b': BinState, C: map<int, int>, leastAddr: int, free: set<int>)
    requires BinsOk(m, b, C, leastAddr) && Touched(m, m', C, free, TREEBINS, TREEBINS + 256)
    requires TreesOk(m', b'.treemap, C, b'.forest, b'.fifo) && Reachable(b'.fifo, leastAddr)
    requires b' == b.(treemap := b'.treemap, forest := b'.forest, fifo := b'.fifo)
    requires forall p | p in free :: p in C && Trie.LargeSize(C[p])
    ensures BinsOk(m', b', C, leastAddr) && LinksOnly(m, m', C, free)
  {
    hide SmallBins.SmallsOk, TreesOk, SameChunk;
    BinnedPlaces(m, b, C, leastAddr);
    forall p | p in SmallBins.SmallMembers(b.stacks) ensures SameChunk(m, m', C, C, p) {
      TouchedElsewhere(m, m', C, free, TREEBINS, TREEBINS + 256, p);
    }
    SmallsKeep(m, m', b.smallmap, C, C, b.stacks);
  }

}
