/** Binning and unbinning chunks of the heap keeps its boundary tags and its payloads. */
module HeapBins {
  import opened ChunkMemory
  import opened Lists
  import opened TreeLinks
  import opened TreeState
  import opened AllBins
  import opened Chunks
  import opened HeapState
  import opened BinMap
  import Trie
  import SmallBins

  /** Link words lie inside free chunks, so writing them changes no tag and no payload. */
  lemma LinksTags(m: Mem, m': Mem, h: Shape, free: set<int>)
    requires TagsOk(m, h) && LinksOnly(m, m', h.C, free) && free <= Free(h)
    ensures TagsOk(m', h)
    ensures forall q, a {:trigger LiveWord(h, q, a)} | LiveWord(h, q, a) :: Rd(m', a) == Rd(m, a)
  {
    hide HeadOk, FootOk, BackOk, RegionOk;
    forall p | p in h.C ensures ChunkOk(m', h, p) {
      assert ChunkOk(m, h, p);
      LinksChunk(m, m', h, free, p);
    }
    forall f | f in h.R ensures RegionOk(m', h, f) {
      LinksRegion(m, m', h, free, f);
    }
    forall q, a {:trigger LiveWord(h, q, a)} | LiveWord(h, q, a) ensures Rd(m', a) == Rd(m, a) {
      forall r | r in free ensures !(r + 16 <= a < r + h.C[r]) {
      }
    }
  }

  lemma LinksWord(m: Mem, m': Mem, h: Shape, free: set<int>, p: int)
    requires TagsOk(m, h) && LinksOnly(m, m', h.C, free) && (p in h.C || IsEnd(h, p))
    ensures Rd(m', p) == Rd(m, p) && Rd(m', p + 8) == Rd(m, p + 8)
  {
    hide ChunkOk;
    if p in h.C {
      assert p >= HEAP_MIN;
      forall r | r in free ensures !(r + 16 <= p < r + h.C[r]) && !(r + 16 <= p + 8 < r + h.C[r]) {
      }
    } else {
      var f :| f in h.R && h.R[f] == p;
      assert RegionOk(m, h, f);
      forall r | r in free ensures !(r + 16 <= p < r + h.C[r]) && !(r + 16 <= p + 8 < r + h.C[r]) {
      }
    }
  }

  lemma LinksChunk(m: Mem, m': Mem, h: Shape, free: set<int>, p: int)
    requires TagsOk(m, h) && LinksOnly(m, m', h.C, free) && p in h.C && ChunkOk(m, h, p)
    ensures ChunkOk(m', h, p)
  {
    hide TagsOk, LinksOnly;
    LinksWord(m, m', h, free, p);
    LinksWord(m, m', h, free, p + h.C[p]);
  }

  lemma LinksRegion(m: Mem, m': Mem, h: Shape, free: set<int>, f: int)
    requires TagsOk(m, h) && LinksOnly(m, m', h.C, free) && f in h.R
    ensures RegionOk(m', h, f)
  {
    hide ChunkOk, LinksOnly;
    assert RegionOk(m, h, f);
    LinksWord(m, m', h, free, f);
    LinksWord(m, m', h, free, h.R[f]);
  }

  lemma LinksForeign(m: Mem, m': Mem, h: Shape, free: set<int>)
    requires TagsOk(m, h) && LinksOnly(m, m', h.C, free)
    ensures forall a {:trigger Foreign(h, a)} | Foreign(h, a) :: Rd(m', a) == Rd(m, a)
  {
    hide ChunkOk, RegionOk, Apart;
    forall a {:trigger Foreign(h, a)} | Foreign(h, a) ensures Rd(m', a) == Rd(m, a) {
      forall p | p in free ensures !(p + 16 <= a < p + h.C[p]) {
        var f :| Inside(h, p, f);
      }
    }
  }

  ghost predicate HeadsKept(m: Mem, m': Mem, h: Shape) {
    forall p {:trigger p in h.C} | p in h.C :: Rd(m', p + 8) == Rd(m, p + 8)
  }

  lemma BinsTame(m: Mem, m': Mem, h: Shape, free: set<int>)
    requires TagsOk(m, h) && LinksOnly(m, m', h.C, free) && free <= Free(h)
    ensures Tame(m, h, m', h, {}) && TagsOk(m', h) && HeadsKept(m, m', h)
  {
    hide TagsOk, LinksOnly, Foreign, LiveWord;
    forall p | p in h.C ensures Rd(m', p + 8) == Rd(m, p + 8) {
      LinksWord(m, m', h, free, p);
    }
    LinksTags(m, m', h, free);
    LinksForeign(m, m', h, free);
  }

  // ---------------------------------------------------------------------------------------
  // Which chunks are binned, before and after

  lemma SmallPlace(m: Mem, b: BinState, C: map<int, int>, leastAddr: int, p: int)
    requires BinsOk(m, b, C, leastAddr) && p in Binned(b) && p in C && C[p] < 256
    ensures SmallBins.SmallSize(C[p]) && p in b.stacks[C[p] / 8]
  {
    hide TreesOk, SmallBins.BinsOk;
    AllLarge(m, b.treemap, C, b.forest, b.fifo);
    if p in Members(b.fifo) {
      var s, k :| s in b.fifo && 0 <= k < |b.fifo[s]| && b.fifo[s][k] == p;
      TreesPlaces(m, b.treemap, C, b.forest, b.fifo);
    }
  }

  lemma LargePlace(m: Mem, b: BinState, C: map<int, int>, leastAddr: int, p: int)
    requires BinsOk(m, b, C, leastAddr) && p in Binned(b) && p in C && C[p] >= 256
    ensures var s: nat := C[p]; s in b.fifo && p in b.fifo[s] && Trie.LargeSize(s)
  {
    hide Trie.LargeSize, SmallBins.BinsOk;
    AllLarge(m, b.treemap, C, b.forest, b.fifo);
    TreesPlaces(m, b.treemap, C, b.forest, b.fifo);
  }

  lemma InSmall(S: SmallBins.Stacks, x: int)
    ensures x in SmallBins.SmallMembers(S) <==> exists i: Index :: x in S[i]
  {
    if i: Index :| x in S[i] {
      var k :| 0 <= k < |S[i]| && S[i][k] == x;
    }
  }

  lemma InLarge(q: Fifo, x: int)
    ensures x in Members(q) <==> exists s :: s in q && x in q[s]
  {
    if s :| s in q && x in q[s] {
      var k :| 0 <= k < |q[s]| && q[s][k] == x;
    }
  }

  lemma SmallPushed(S: SmallBins.Stacks, i: Index, p: int)
    ensures SmallBins.SmallMembers(S[i := [p] + S[i]]) == SmallBins.SmallMembers(S) + {p}
  {
    hide SmallBins.SmallMembers;
    var S' := S[i := [p] + S[i]];
    forall x ensures x in SmallBins.SmallMembers(S') <==> x in SmallBins.SmallMembers(S) + {p} {
      InSmall(S, x);
      InSmall(S', x);
      if j: Index :| x in S[j] { assert x in S'[j]; }
      if j: Index :| x in S'[j] { assert x == p || x in S[j]; }
      assert p in S'[i];
    }
  }

  /** The bin of p loses p and nothing else. */
  lemma SmallDropped(S: SmallBins.Stacks, C: map<int, int>, i: Index, j: nat)
    requires SmallBins.StacksPlaced(C, S) && j < |S[i]|
    ensures SmallBins.SmallMembers(S[i := Without(S[i], j)]) == SmallBins.SmallMembers(S) - {S[i][j]}
  {
    hide SmallBins.SmallMembers;
    var p, M := S[i][j], Without(S[i], j);
    var S' := S[i := M];
    assert p !in M && forall x :: x in M <==> x in S[i] && x != p by { WithoutDistinct(S[i], j); }
    forall x ensures x in SmallBins.SmallMembers(S') <==> x in SmallBins.SmallMembers(S) - {p} {
      InSmall(S, x);
      InSmall(S', x);
      if k: Index :| x in S[k] { assert x == p || x in S'[k]; }
      if k: Index :| x in S'[k] {
        assert x in S[k];
        if x == p { SmallOnce(S, C, i, k, p); }
      }
    }
  }

  lemma SmallOnce(S: SmallBins.Stacks, C: map<int, int>, i: Index, k: Index, p: int)
    requires SmallBins.StacksPlaced(C, S) && p in S[i] && p in S[k]
    ensures i == k
  {
    var x :| 0 <= x < |S[i]| && S[i][x] == p;
    var y :| 0 <= y < |S[k]| && S[k][y] == p;
  }

  lemma LargeAdded(q: Fifo, s: nat, p: int)
    ensures Members(q[s := Queue(q, s) + [p]]) == Members(q) + {p}
  {
    hide Members;
    var q' := q[s := Queue(q, s) + [p]];
    forall x ensures x in Members(q') <==> x in Members(q) + {p} {
      InLarge(q, x);
      InLarge(q', x);
      if t :| t in q && x in q[t] { assert t in q' && x in q'[t]; }
      if t :| t in q' && x in q'[t] { assert x == p || (t in q && x in q[t]); }
      assert s in q' && p in q'[s];
    }
  }

  lemma LargeDropped(q: Fifo, C: map<int, int>, s: nat, j: nat)
    requires Places(C, q) && s in q && j < |q[s]|
    ensures Members(Removed(q, s, j)) == Members(q) - {q[s][j]}
  {
    hide Members;
    var p, q' := q[s][j], Removed(q, s, j);
    WithoutDistinct(q[s], j);
    forall x ensures x in Members(q') <==> x in Members(q) - {p} {
      InLarge(q, x);
      InLarge(q', x);
      if t :| t in q && x in q[t] {
        if x != p {
          assert t in q' && x in q'[t];
        }
      }
      if t :| t in q' && x in q'[t] {
        assert t in q && x in q[t];
        if x == p { LargeOnce(q, C, s, t, p); }
      }
    }
  }

  lemma LargeOnce(q: Fifo, C: map<int, int>, s: nat, t: nat, p: int)
    requires Places(C, q) && s in q && t in q && p in q[s] && p in q[t]
    ensures s == t
  {
    var x :| 0 <= x < |q[s]| && q[s][x] == p;
    var y :| 0 <= y < |q[t]| && q[t][y] == p;
  }

  // ---------------------------------------------------------------------------------------
  // The bins as lists

  /** What the bins hold, without the tries and bitmaps that find it. */
  datatype Contents = Contents(stacks: SmallBins.Stacks, fifo: Fifo)

  ghost function ContentsOf(b: BinState): Contents {
    Contents(b.stacks, b.fifo)
  }

  /** insert_chunk: in front of a smallbin, but behind the chunks of its size in a treebin. */
  function Put(l: Contents, p: int, s: nat): Contents {
    if s < 256 then
      l.(stacks := l.stacks[s / 8 := [p] + l.stacks[s / 8]])
    else
      l.(fifo := l.fifo[s := Queue(l.fifo, s) + [p]])
  }

  /** unlink_chunk: out of the bin of its size, the others staying in order. */
  function Take(l: Contents, p: int, s: nat): Contents {
    if s < 256 && p in l.stacks[s / 8] then
      l.(stacks := l.stacks[s / 8 := Without(l.stacks[s / 8], IndexOf(l.stacks[s / 8], p))])
    else if s >= 256 && s in l.fifo && p in l.fifo[s] then
      l.(fifo := Removed(l.fifo, s, IndexOf(l.fifo[s], p)))
    else
      l
  }

  // ---------------------------------------------------------------------------------------
  // Core across one bin operation

  /** A chunk that may be binned now. */
  ghost predicate Binnable(b: BinState, h: Shape, p: int) {
    p in Spare(b, h) && p != h.top
  }

  lemma SmallBinnable(m: Mem, b: BinState, h: Shape, leastAddr: int, p: int)
    requires Core(m, b, h, leastAddr) && Binnable(b, h, p)
    ensures p in h.C && p >= leastAddr && ChunkSize(Rd(m, p + 8)) == h.C[p] && 0 <= h.C[p]
    ensures if h.C[p] < 256 then SmallBins.SmallSize(h.C[p]) && p !in b.stacks[h.C[p] / 8]
            else Trie.LargeSize(h.C[p]) && p !in Queue(b.fifo, h.C[p])
  {
    hide BinsOk, FootOk, BackOk, RegionOk, SmallBins.SmallMembers, Members;
    assert ChunkOk(m, h, p);
    if h.C[p] < 256 { InSmall(b.stacks, p); } else { InLarge(b.fifo, p); }
  }

  lemma AfterSmallInsert(m: Mem, m': Mem, b: BinState, b': BinState, h: Shape, leastAddr: int, p: int)
    requires Core(m, b, h, leastAddr) && Binnable(b, h, p) && h.C[p] < 256 && SmallBins.SmallSize(h.C[p])
    requires b' == b.(smallmap := b'.smallmap, stacks := b.stacks[h.C[p] / 8 := [p] + b.stacks[h.C[p] / 8]])
    requires SmallBins.SmallsOk(m', b'.smallmap, h.C, b'.stacks) && SmallBins.SmallReachable(b'.stacks, leastAddr)
    requires Touched(m, m', h.C, SmallBins.SmallMembers(b.stacks) + {p}, SMALLBINS, SmallBins.SMALL_END)
    ensures Core(m', b', h, leastAddr) && Binned(b') == Binned(b) + {p}
    ensures Tame(m, h, m', h, {}) && HeadsKept(m, m', h)
  {
    hide SmallBins.SmallsOk, TreesOk, Touched, LinksOnly, ChunkOk, RegionOk, SmallBins.SmallReachable, Reachable,
      SmallBins.SmallMembers, Members;
    ghost var free := SmallBins.SmallMembers(b.stacks) + {p};
    BinnedPlaces(m, b, h.C, leastAddr);
    AfterSmall(m, m', b, b', h.C, leastAddr, free);
    SmallPushed(b.stacks, h.C[p] / 8, p);
    BinsTame(m, m', h, free);
  }

  lemma AfterLargeInsert(m: Mem, m': Mem, b: BinState, b': BinState, h: Shape, leastAddr: int, p: int)
    requires Core(m, b, h, leastAddr) && Binnable(b, h, p) && h.C[p] >= 0 && Trie.LargeSize(h.C[p])
    requires b' == b.(treemap := b'.treemap, forest := b'.forest, fifo := b.fifo[h.C[p] := Queue(b.fifo, h.C[p]) + [p]])
    requires TreesOk(m', b'.treemap, h.C, b'.forest, b'.fifo) && Reachable(b'.fifo, leastAddr)
    requires Touched(m, m', h.C, Members(b.fifo) + {p}, TREEBINS, TREEBINS + 256)
    ensures Core(m', b', h, leastAddr) && Binned(b') == Binned(b) + {p}
    ensures Tame(m, h, m', h, {}) && HeadsKept(m, m', h)
  {
    hide SmallBins.SmallsOk, TreesOk, Touched, LinksOnly, ChunkOk, RegionOk, SmallBins.SmallReachable, Reachable,
      SmallBins.SmallMembers, Members, Trie.LargeSize;
    ghost var free := Members(b.fifo) + {p};
    BinnedPlaces(m, b, h.C, leastAddr);
    AfterTree(m, m', b, b', h.C, leastAddr, free);
    LargeAdded(b.fifo, h.C[p], p);
    BinsTame(m, m', h, free);
  }

  lemma AfterSmallUnlink(m: Mem, m': Mem, b: BinState, b': BinState, h: Shape, leastAddr: int, i: Index, j: nat)
    requires Core(m, b, h, leastAddr) && j < |b.stacks[i]|
    requires b' == b.(smallmap := b'.smallmap, stacks := b.stacks[i := Without(b.stacks[i], j)])
    requires SmallBins.SmallsOk(m', b'.smallmap, h.C, b'.stacks) && SmallBins.SmallReachable(b'.stacks, leastAddr)
    requires Touched(m, m', h.C, SmallBins.SmallMembers(b.stacks), SMALLBINS, SmallBins.SMALL_END)
    ensures Core(m', b', h, leastAddr) && Binned(b') == Binned(b) - {b.stacks[i][j]}
    ensures Tame(m, h, m', h, {}) && HeadsKept(m, m', h)
  {
    hide TreesOk, Touched, LinksOnly, ChunkOk, RegionOk, SmallBins.SmallReachable, Reachable, SmallBins.SmallMembers,
      Members, SmallBins.BinsOk;
    ghost var free := SmallBins.SmallMembers(b.stacks);
    BinnedPlaces(m, b, h.C, leastAddr);
    AfterSmall(m, m', b, b', h.C, leastAddr, free);
    SmallDropped(b.stacks, h.C, i, j);
    BinsTame(m, m', h, free);
    InSmall(b.stacks, b.stacks[i][j]);
  }

  lemma AfterLargeUnlink(m: Mem, m': Mem, b: BinState, b': BinState, h: Shape, leastAddr: int, s: nat, j: nat)
    requires Core(m, b, h, leastAddr) && s in b.fifo && j < |b.fifo[s]|
    requires b' == b.(treemap := b'.treemap, forest := b'.forest, fifo := Removed(b.fifo, s, j))
    requires TreesOk(m', b'.treemap, h.C, b'.forest, b'.fifo) && Reachable(b'.fifo, leastAddr)
    requires Touched(m, m', h.C, Members(b.fifo), TREEBINS, TREEBINS + 256)
    ensures Core(m', b', h, leastAddr) && Binned(b') == Binned(b) - {b.fifo[s][j]}
    ensures Tame(m, h, m', h, {}) && HeadsKept(m, m', h)
  {
    hide TreesOk, Touched, LinksOnly, ChunkOk, RegionOk, SmallBins.SmallReachable, Reachable, SmallBins.SmallMembers,
      Members, SmallBins.SmallsOk;
    ghost var free := Members(b.fifo);
    BinnedPlaces(m, b, h.C, leastAddr);
    AfterTree(m, m', b, b', h.C, leastAddr, free);
    TreesPlaces(m, b.treemap, h.C, b.forest, b.fifo);
    LargeDropped(b.fifo, h.C, s, j);
    BinsTame(m, m', h, free);
    InLarge(b.fifo, b.fifo[s][j]);
  }
}
