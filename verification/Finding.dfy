/** bin_find, the search that the checks of the allocator use: it finds exactly the binned chunks. */
module Finding {
  import opened Words
  import opened BinMap
  import opened Trie
  import opened ChunkMemory
  import opened Lists
  import opened TreeLinks
  import opened TreeState
  import opened Chunks
  import opened HeapState
  import opened HeapInvariant
  import opened HeapBins
  import AllBins
  import TreeIndex
  import SmallBins
  import TreeBins
  import Heap

  // ---------------------------------------------------------------------------------------
  // Smallbins

  /** The circle of a bin, along fd. */
  lemma SmallNext(m: Mem, smallmap: bv32, C: map<int, int>, S: SmallBins.Stacks, i: Index, k: nat)
    requires SmallBins.SmallsOk(m, smallmap, C, S) && Marked(smallmap, i) && k <= |S[i]|
    ensures var N := [SmallBins.BinHeader(i)] + S[i];
      Rd(m, N[k] + 16) == Nxt(N, k) && (Nxt(N, k) == N[0] <==> k + 1 == |N|)
  {
    hide Marked, SmallBins.Linkable, SmallBins.PairsOf, SmallBins.Circle, Apart, SmallBins.StacksPlaced;
    var N := [SmallBins.BinHeader(i)] + S[i];
    SmallBins.NodePairs(m, C, N, k);
    SmallBins.NodesSeparate(C, S, i);
  }

  method SmallFind(bins: SmallBins.SmallBins, x: int, i: Index, ghost C: map<int, int>) returns (found: bool)
    requires bins.Valid(C) && x >= HEAP_MIN
    ensures found <==> x in bins.stacks[i]
  {
    hide SmallBins.SmallsOk, SmallBins.SmallReachable, Marked;
    ghost var m, S := bins.arena.mem, bins.stacks;
    found := false;
    assert Marked(bins.smallmap, i) <==> S[i] != [] by { SmallMarked(m, bins.smallmap, C, S, i); }
    if Marked(bins.smallmap, i) {
      var b := SmallBins.BinHeader(i);
      ghost var N, k := [b] + S[i], 0;
      var p := b;
      while true
        invariant 0 <= k < |N| && p == N[k] && forall j | 0 <= j < k :: N[j] != x
        decreases |N| - k
      {
        if p == x { return true; }
        SmallNext(m, bins.smallmap, C, S, i, k);
        p := Rd(bins.arena.mem, p + 16);
        if p == b { break; }
        k := k + 1;
      }
      assert forall j | 0 <= j < |S[i]| :: S[i][j] == N[j + 1];
    }
  }

  lemma SmallMarked(m: Mem, smallmap: bv32, C: map<int, int>, S: SmallBins.Stacks, i: Index)
    requires SmallBins.SmallsOk(m, smallmap, C, S)
    ensures Marked(smallmap, i) <==> S[i] != []
  {
    hide Marked;
  }

  // ---------------------------------------------------------------------------------------
  // Treebins

  /** The ring of a size, along fd: from the tree node to the youngest, and so on to the second oldest. */
  lemma LargeNext(m: Mem, treemap: bv32, C: map<int, int>, f: Forest, q: Fifo, s: nat, k: nat)
    requires TreesOk(m, treemap, C, f, q) && s in q && k < |q[s]|
    ensures Rd(m, q[s][k] + 16) == Prv(q[s], k)
    ensures Prv(q[s], k) == q[s][0] <==> k == 1 || |q[s]| == 1
  {
    hide TreesOk, LinksOk;
    var V := ViewsOf(m, Large(C));
    assert LinksOk(V, f, q) by { TreesLinks(m, treemap, C, f, q); }
    LinksAt(V, f, q, s);
    TreesPlaces(m, treemap, C, f, q);
  }

  lemma TreesLinks(m: Mem, treemap: bv32, C: map<int, int>, f: Forest, q: Fifo)
    requires TreesOk(m, treemap, C, f, q)
    ensures LinksOk(ViewsOf(m, Large(C)), f, q)
  {
  }

  method RingFind(bins: TreeBins.TreeBins, x: int, t: int, ghost s: nat, ghost C: map<int, int>) returns (found: bool)
    requires bins.Valid(C) && s in bins.fifo && bins.fifo[s] != [] && t == bins.fifo[s][0]
    ensures found <==> x in bins.fifo[s]
  {
    hide TreesOk, Reachable;
    ghost var L, k := bins.fifo[s], |bins.fifo[s]|;
    var u := t;
    while true
      invariant 0 < k <= |L| && u == L[if k == |L| then 0 else k]
      invariant (forall j | k < j < |L| :: L[j] != x) && (k < |L| ==> L[0] != x)
      decreases k
    {
      if u == x { return true; }
      LargeNext(bins.arena.mem, bins.treemap, C, bins.forest, bins.fifo, s, if k == |L| then 0 else k);
      u := Rd(bins.arena.mem, u + 16);
      if u == t { break; }
      k := k - 1;
    }
    found := false;
  }

  method LargeFind(bins: TreeBins.TreeBins, x: int, size: nat, ghost C: map<int, int>) returns (found: bool)
    requires bins.Valid(C) && LargeSize(size)
    ensures found <==> x in Queue(bins.fifo, size)
  {
    hide TreesOk, Agree, Turn, OnPath, Reachable, Marked, Bin, Shl, Wrap, SignWord;
    ghost var m, f, q := bins.arena.mem, bins.forest, bins.fifo;
    found := false;
    if Marked(bins.treemap, Bin(size)) {
      var t := Rd(bins.arena.mem, RootWord(Bin(size)));
      var sizebits: nat := Shl(size, TreeIndex.LeftShift(Bin(size)));
      ghost var u: nat := PathStarts(m, bins.treemap, C, f, q, size, t, sizebits);
      TreeNode(m, bins.treemap, C, f, q, u);
      while t != 0 && ChunkSize(Rd(bins.arena.mem, t + 8)) != size
        invariant t != 0 ==> u in f.nodes && t == NodeAt(q, u) && OnPath(f, size, u, sizebits)
        invariant t == 0 ==> size !in f.nodes
        decreases if t == 0 then 0 else 1 + Width(size) - PathDepth(f, u)
      {
        TreeNode(m, bins.treemap, C, f, q, u);
        PathStep(m, bins.treemap, C, f, q, size, u, t, sizebits);
        ghost var k := f.nodes[u].Kid(sizebits / 0x8000_0000_0000_0000);
        t := Rd(bins.arena.mem, t + 32 + 8 * (sizebits / 0x8000_0000_0000_0000));
        sizebits := Wrap(sizebits * 2);
        u := k;
      }
      TreesKeys(m, bins.treemap, C, f, q);
      if t != 0 {
        TreeNode(m, bins.treemap, C, f, q, u);
        found := RingFind(bins, x, t, size, C);
      }
    } else {
      NotInTrees(m, bins.treemap, C, f, q, size);
    }
  }

  lemma NotInTrees(m: Mem, treemap: bv32, C: map<int, int>, f: Forest, q: Fifo, s: nat)
    requires TreesOk(m, treemap, C, f, q) && LargeSize(s) && !Marked(treemap, Bin(s))
    ensures s !in q
  {
    hide Ok, Bin, LinksOk, HeadsOk, Marked, Places;
    TreesKeys(m, treemap, C, f, q);
    if s in f.nodes { UnderRoot(f, s); }
  }

  // ---------------------------------------------------------------------------------------
  // All bins

  /** Where a chunk of its size would be. */
  lemma BinnedBySize(m: Mem, b: AllBins.BinState, C: map<int, int>, leastAddr: int, x: int)
    requires AllBins.BinsOk(m, b, C, leastAddr) && x in C && C[x] >= 0 && C[x] % 8 == 0
    ensures x in AllBins.Binned(b) <==>
      if C[x] < 256 then x in b.stacks[C[x] / 8] else x in Queue(b.fifo, C[x])
  {
    hide SmallBins.SmallMembers, Members, SmallBins.BinsOk, LinksOk, Ok, RootsOk, HeadsOk, Apart, LargeSize, Bin;
    InSmall(b.stacks, x);
    InLarge(b.fifo, x);
    SmallPlace(C, b.stacks, x);
    LargePlace(m, b.treemap, C, b.forest, b.fifo, x);
  }

  lemma SmallPlace(C: map<int, int>, S: SmallBins.Stacks, x: int)
    requires SmallBins.StacksPlaced(C, S) && x in C
    ensures forall i: Index | x in S[i] :: C[x] == 8 * i && C[x] < 256
  {
    forall i: Index | x in S[i] ensures C[x] == 8 * i && C[x] < 256 {
      var k :| 0 <= k < |S[i]| && S[i][k] == x;
    }
  }

  lemma LargePlace(m: Mem, treemap: bv32, C: map<int, int>, f: Forest, q: Fifo, x: int)
    requires TreesOk(m, treemap, C, f, q) && x in C
    ensures forall s | s in q && x in q[s] :: C[x] == s && s >= 256
  {
    hide Ok, Bin, LinksOk, HeadsOk, RootsOk;
    forall s | s in q && x in q[s] ensures C[x] == s && s >= 256 {
      var k :| 0 <= k < |q[s]| && q[s][k] == x;
      TreesKeys(m, treemap, C, f, q);
      TreeNode(m, treemap, C, f, q, s);
    }
  }

  /** bin_find */
  method BinFind(heap: Heap.Heap, x: int) returns (found: bool)
    requires heap.Valid() && x in heap.h.C
    ensures found <==> x in AllBins.Binned(heap.Bins())
  {
    hide TreesOk, Reachable, SmallBins.SmallsOk, SmallBins.SmallReachable, AllBins.Binned, Spare, MarksOk, TagsOk, Bin,
      ChunkSize, IsInuse, IsMmapped, Pinuse, Cinuse;
    HeadFacts(heap.arena.mem, heap.h, x);
    var size := ChunkSize(Rd(heap.arena.mem, x + 8));
    BinnedBySize(heap.arena.mem, heap.Bins(), heap.h.C, heap.arena.leastAddr, x);
    if size < 256 {
      found := SmallFind(heap.small, x, size / 8, heap.h.C);
    } else {
      found := LargeFind(heap.tree, x, size, heap.h.C);
    }
  }
}
