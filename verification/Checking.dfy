/** The allocator's own checks of malloc_state (malloc.c, "Debugging support"), and that they succeed
    whenever the invariant holds.  Each check gives its outcome instead of aborting. */
module Checking {
  import opened Words
  import opened BinMap
  import opened Trie
  import opened ChunkMemory
  import opened Lists
  import opened TreeLinks
  import opened TreeState
  import opened Chunks
  import opened HeapState
  import opened HeapInvariant
  import opened HeapBins
  import opened Finding
  import opened Segments
  import opened Spaces
  import opened SpaceSteps
  import opened Regions
  import AllBins
  import TreeIndex
  import SmallBins
  import Tiling
  import Heap
  import Allocator

  // ---------------------------------------------------------------------------------------
  // Chunks

  predicate AnyChecks(m: Mem, leastAddr: int, p: int) {
    ((p + 16) % 16 == 0 || Rd(m, p + 8) == FENCEPOST_HEAD) && p >= leastAddr
  }

  /** do_check_any_chunk */
  method CheckAnyChunk(heap: Heap.Heap, p: int) returns (ok: bool)
    ensures ok <==> AnyChecks(heap.arena.mem, heap.arena.leastAddr, p)
  {
    ok := (p + 16) % 16 == 0 || Rd(heap.arena.mem, p + 8) == FENCEPOST_HEAD;
    ok := ok && p >= heap.arena.leastAddr;
  }

  /** Every chunk passes. */
  lemma AnyPasses(m: Mem, b: AllBins.BinState, h: Shape, k: Marks, leastAddr: int, p: int)
    requires HeapOk(m, b, h, k, leastAddr, {}) && p in h.C
    ensures AnyChecks(m, leastAddr, p)
  {
    hide ChunkSize, IsInuse, IsMmapped, Pinuse, Cinuse, Head, AllBins.BinsOk, Spare, MarksOk, AllBins.Binned, TagsOk;
    HeadFacts(m, h, p);
  }

  /** What is tested of a chunk in use, that is not mapped. */
  predicate InuseChecks(m: Mem, leastAddr: int, p: int) {
    var w := Rd(m, p + 8);
    var prev := p - Rd(m, p);
    && AnyChecks(m, leastAddr, p) && IsInuse(w) && Pinuse(Rd(m, p + ChunkSize(w) + 8))
    && (IsMmapped(w) || Pinuse(w) || prev + ChunkSize(Rd(m, prev + 8)) == p)
  }

  /** do_check_inuse_chunk, on a chunk that is not mapped */
  method CheckInuseChunk(heap: Heap.Heap, p: int) returns (ok: bool)
    ensures ok <==> InuseChecks(heap.arena.mem, heap.arena.leastAddr, p)
  {
    hide ChunkSize, IsInuse, IsMmapped, Pinuse, AnyChecks;
    ok := CheckAnyChunk(heap, p);
    var w := Rd(heap.arena.mem, p + 8);
    var next := p + ChunkSize(w);
    ok := ok && IsInuse(w) && Pinuse(Rd(heap.arena.mem, next + 8));
    if ok && !IsMmapped(w) && !Pinuse(w) {
      var prev := p - Rd(heap.arena.mem, p);
      ok := prev + ChunkSize(Rd(heap.arena.mem, prev + 8)) == p;
    }
  }

  /** Every chunk in use passes. */
  lemma InusePasses(m: Mem, b: AllBins.BinState, h: Shape, k: Marks, leastAddr: int, p: int)
    requires HeapOk(m, b, h, k, leastAddr, {}) && p in h.C && p in h.U
    ensures InuseChecks(m, leastAddr, p)
  {
    hide ChunkSize, IsInuse, IsMmapped, Pinuse, Cinuse, Head, Core, Spare, MarksOk, TagsOk, AnyChecks;
    SmallsAre(m, b, h, k, leastAddr);
    HeadFacts(m, h, p);
    FootFacts(m, h, p);
    BackFacts(m, h, p);
    AnyPasses(m, b, h, k, leastAddr, p);
  }

  lemma BackFacts(m: Mem, h: Shape, p: int)
    requires TagsOk(m, h) && p in h.C
    ensures !Pinuse(Rd(m, p + 8)) ==>
      var q := p - Rd(m, p); q in h.C && q !in h.U && q + ChunkSize(Rd(m, q + 8)) == p
  {
    hide ChunkSize, HeadOk, FootOk, RegionOk, Apart, Head;
    ChunkFacts(m, h, p);
    if !Pinuse(Rd(m, p + 8)) { HeadFacts(m, h, p - Rd(m, p)); }
  }

  /** The links of a binned chunk and its neighbours agree. */
  lemma LinksAgree(m: Mem, b: AllBins.BinState, C: map<int, int>, leastAddr: int, p: int)
    requires AllBins.BinsOk(m, b, C, leastAddr) && p in AllBins.Binned(b)
    ensures Rd(m, Rd(m, p + 16) + 24) == p && Rd(m, Rd(m, p + 24) + 16) == p
  {
    hide TreesOk, Reachable, SmallBins.SmallsOk, SmallBins.SmallReachable, SmallBins.SmallMembers, Members;
    InSmall(b.stacks, p);
    InLarge(b.fifo, p);
    if i: Index :| p in b.stacks[i] {
      var j :| 0 <= j < |b.stacks[i]| && b.stacks[i][j] == p;
      SmallBins.BinNode(m, b.smallmap, C, b.stacks, i, j, leastAddr);
    } else {
      var s :| s in b.fifo && p in b.fifo[s];
      var k :| 0 <= k < |b.fifo[s]| && b.fifo[s][k] == p;
      RingLinks(m, b.treemap, C, b.forest, b.fifo, s, k);
    }
  }

  lemma RingLinks(m: Mem, treemap: bv32, C: map<int, int>, f: Forest, q: Fifo, s: nat, k: nat)
    requires TreesOk(m, treemap, C, f, q) && s in q && k < |q[s]|
    ensures var p := q[s][k]; Rd(m, Rd(m, p + 16) + 24) == p && Rd(m, Rd(m, p + 24) + 16) == p
  {
    hide TreesOk, ViewsOf, NodeFields, LinksOk, Distinct;
    var V, L := ViewsOf(m, Large(C)), q[s];
    assert LinksOk(V, f, q) by { TreesLinks(m, treemap, C, f, q); }
    LinksAt(V, f, q, s);
    assert Ring(V, L) by { NodeRing(V, f, q, s); }
    var n, p := if k + 1 < |L| then k + 1 else 0, if k > 0 then k - 1 else |L| - 1;
    RingViews(m, Large(C), L, k);
    RingViews(m, Large(C), L, n);
    RingViews(m, Large(C), L, p);
  }

  lemma NodeRing(V: Views, f: Forest, q: Fifo, s: nat)
    requires s in f.nodes && s in q && NodeFields(V, f, q, s)
    ensures Ring(V, q[s]) && Chained(V, q[s], Bin(s))
  {
    hide Ring, Chained, Bin;
  }

  lemma RingViews(m: Mem, ps: set<int>, L: seq<int>, k: nat)
    requires Ring(ViewsOf(m, ps), L) && k < |L|
    ensures Rd(m, L[k] + 16) == Prv(L, k) && Rd(m, L[k] + 24) == Nxt(L, k) && L[k] in ps
  {
    assert L[k] in ViewsOf(m, ps);
  }

  /** What is tested of a free chunk. */
  predicate FreeChecks(m: Mem, leastAddr: int, dv: int, top: int, p: int) {
    var w := Rd(m, p + 8);
    var sz := ChunkSize(w);
    var next := p + sz;
    && AnyChecks(m, leastAddr, p) && !IsInuse(w) && !Pinuse(Rd(m, next + 8)) && !IsMmapped(w)
    && (p != dv && p != top ==>
         if sz >= MIN_CHUNK_SIZE then
           && sz % 16 == 0 && (p + 16) % 16 == 0 && Rd(m, next) == sz && Pinuse(w)
           && (next == top || IsInuse(Rd(m, next + 8)))
           && Rd(m, Rd(m, p + 16) + 24) == p && Rd(m, Rd(m, p + 24) + 16) == p
         else
           sz == 8)
  }

  /** do_check_free_chunk */
  method CheckFreeChunk(heap: Heap.Heap, p: int) returns (ok: bool)
    ensures ok <==> FreeChecks(heap.arena.mem, heap.arena.leastAddr, heap.dv, heap.top, p)
  {
    hide ChunkSize, IsInuse, IsMmapped, Pinuse, AnyChecks;
    ok := CheckAnyChunk(heap, p);
    var w := Rd(heap.arena.mem, p + 8);
    var sz := ChunkSize(w);
    var next := p + sz;
    ok := ok && !IsInuse(w) && !Pinuse(Rd(heap.arena.mem, next + 8)) && !IsMmapped(w);
    if p != heap.dv && p != heap.top {
      if sz >= MIN_CHUNK_SIZE {
        var fd, bk := Rd(heap.arena.mem, p + 16), Rd(heap.arena.mem, p + 24);
        ok := ok && sz % 16 == 0 && (p + 16) % 16 == 0 && Rd(heap.arena.mem, next) == sz && Pinuse(w)
          && (next == heap.top || IsInuse(Rd(heap.arena.mem, next + 8)))
          && Rd(heap.arena.mem, fd + 24) == p && Rd(heap.arena.mem, bk + 16) == p;
      } else {
        ok := ok && sz == 8;
      }
    }
  }

  /** Every free chunk other than top passes. */
  lemma FreePasses(m: Mem, b: AllBins.BinState, h: Shape, k: Marks, leastAddr: int, p: int)
    requires HeapOk(m, b, h, k, leastAddr, {}) && p in h.C && p !in h.U && p != h.top
    ensures FreeChecks(m, leastAddr, k.dv, k.top, p)
  {
    hide ChunkSize, IsInuse, IsMmapped, Pinuse, Cinuse, Head, Core, Spare, MarksOk, TagsOk, AnyChecks, AllBins.BinsOk,
      AllBins.Binned;
    SmallsAre(m, b, h, k, leastAddr);
    HeadFacts(m, h, p);
    FootFacts(m, h, p);
    NextFacts(m, h, p);
    HeadFacts(m, h, p + h.C[p]);
    AnyPasses(m, b, h, k, leastAddr, p);
    FreeIsBinned(m, b, h, k, leastAddr, p);
    if p != k.dv { LinksAgree(m, b, h.C, leastAddr, p); }
  }

  lemma FreeIsBinned(m: Mem, b: AllBins.BinState, h: Shape, k: Marks, leastAddr: int, p: int)
    requires HeapOk(m, b, h, k, leastAddr, {}) && p in h.C && p !in h.U
    ensures (p in AllBins.Binned(b) <==> p != k.dv && p != k.top) && k.top == h.top
      && AllBins.BinsOk(m, b, h.C, leastAddr)
  {
    hide AllBins.BinsOk, AllBins.Binned;
    assert p in Spare(b, h) <==> p in k.Held();
    assert k.dv in k.Held() <==> k.dv != 0;
  }

  // ---------------------------------------------------------------------------------------
  // Bins

  /** The circle of a bin, along bk. */
  lemma SmallPrevious(m: Mem, smallmap: bv32, C: map<int, int>, S: SmallBins.Stacks, i: Index, k: nat)
    requires SmallBins.SmallsOk(m, smallmap, C, S) && Marked(smallmap, i) && k <= |S[i]|
    ensures var N := [SmallBins.BinHeader(i)] + S[i];
      Rd(m, N[k] + 24) == Prv(N, k) && (k > 0 ==> N[k] != N[0] && N[k] == S[i][k - 1])
  {
    hide Marked, SmallBins.Linkable, SmallBins.PairsOf, SmallBins.Circle, Apart, SmallBins.StacksPlaced;
    var N := [SmallBins.BinHeader(i)] + S[i];
    SmallBins.NodePairs(m, C, N, k);
    SmallBins.NodesSeparate(C, S, i);
  }

  lemma InStack(m: Mem, b: AllBins.BinState, h: Shape, leastAddr: int, i: Index, j: nat)
    requires Core(m, b, h, leastAddr) && j < |b.stacks[i]|
    ensures var p := b.stacks[i][j]; p in h.C && p !in h.U && p != h.top && h.C[p] == 8 * i
  {
    hide TagsOk, Members, TreesOk, SmallBins.BinsOk, Apart;
    InSmall(b.stacks, b.stacks[i][j]);
  }

  /** do_check_smallbin */
  method CheckSmallbin(heap: Heap.Heap, i: Index) returns (ok: bool)
    requires heap.Valid()
    ensures ok
  {
    hide ChunkSize, Head, AllBins.BinsOk, Spare, MarksOk, AllBins.Binned, TagsOk, SmallBins.SmallsOk, Marked, Core;
    ghost var m, S := heap.arena.mem, heap.small.stacks;
    SmallsAre(m, heap.Bins(), heap.h, heap.Fields(), heap.arena.leastAddr);
    assert Marked(heap.small.smallmap, i) <==> S[i] != [] by { SmallMarked(m, heap.small.smallmap, heap.h.C, S, i); }
    var b := SmallBins.BinHeader(i);
    var p := Rd(heap.arena.mem, b + 24);
    var empty := !Marked(heap.small.smallmap, i);
    ghost var N := [b] + S[i];
    ghost var k := |S[i]|;
    if !empty { SmallPrevious(m, heap.small.smallmap, heap.h.C, S, i, 0); }
    ok := p == b ==> empty;
    if !empty {
      SmallPrevious(m, heap.small.smallmap, heap.h.C, S, i, k);
      while p != b
        invariant 0 <= k < |N| && p == N[k] && ok && (k > 0 <==> p != b)
        decreases k
      {
        var one := CheckInSmallbin(heap, i, p, k - 1);
        SmallPrevious(m, heap.small.smallmap, heap.h.C, S, i, k);
        SmallPrevious(m, heap.small.smallmap, heap.h.C, S, i, k - 1);
        ok := ok && one;
        p := Rd(heap.arena.mem, p + 24);
        k := k - 1;
      }
    }
  }

  lemma SmallsAre(m: Mem, b: AllBins.BinState, h: Shape, k: Marks, leastAddr: int)
    requires HeapOk(m, b, h, k, leastAddr, {})
    ensures SmallBins.SmallsOk(m, b.smallmap, h.C, b.stacks) && AllBins.BinsOk(m, b, h.C, leastAddr) && TagsOk(m, h)
    ensures Core(m, b, h, leastAddr)
  {
    hide TagsOk, SmallBins.SmallsOk, TreesOk, Spare;
  }

  /** One chunk of a smallbin. */
  method CheckInSmallbin(heap: Heap.Heap, i: Index, p: int, ghost j: nat) returns (ok: bool)
    requires heap.Valid() && j < |heap.small.stacks[i]| && p == heap.small.stacks[i][j]
    ensures ok
  {
    hide AnyChecks, InuseChecks, FreeChecks, ChunkSize, Head, AllBins.BinsOk, Spare, MarksOk, AllBins.Binned, TagsOk,
      SmallBins.SmallsOk, Marked, Core;
    ghost var m, h, b := heap.arena.mem, heap.h, heap.Bins();
    SmallsAre(m, b, h, heap.Fields(), heap.arena.leastAddr);
    InStack(m, b, h, heap.arena.leastAddr, i, j);
    HeadFacts(m, h, p);
    NextFacts(m, h, p);
    if j > 0 {
      InStack(m, b, h, heap.arena.leastAddr, i, j - 1);
      HeadFacts(m, h, heap.small.stacks[i][j - 1]);
    }
    assert Marked(b.smallmap, i) by { SmallMarked(m, b.smallmap, h.C, b.stacks, i); }
    SmallPrevious(m, b.smallmap, h.C, b.stacks, i, j + 1);
    FreePasses(m, b, h, heap.Fields(), heap.arena.leastAddr, p);
    ok := CheckFreeChunk(heap, p);
    var size, bk := ChunkSize(Rd(heap.arena.mem, p + 8)), Rd(heap.arena.mem, p + 24);
    ok := ok && size / 8 == i
      && (bk == SmallBins.BinHeader(i) || ChunkSize(Rd(heap.arena.mem, bk + 8)) == size);
    var q := p + size;
    if Rd(heap.arena.mem, q + 8) != FENCEPOST_HEAD {
      InusePasses(m, b, h, heap.Fields(), heap.arena.leastAddr, q);
      var next := CheckInuseChunk(heap, q);
      ok := ok && next;
    }
  }

  // ---------------------------------------------------------------------------------------
  // Trees

  lemma {:induction false} HiMonotone(s: nat, t: nat, e: nat)
    requires s <= t
    ensures Hi(s, e) <= Hi(t, e)
  {
    if e > 0 { HiMonotone(s, t, e - 1); }
  }

  /** The left child is smaller than the right one. */
  lemma KidsInOrder(f: Forest, s: nat)
    requires Ok(f) && s in f.nodes && f.nodes[s].left != 0 && f.nodes[s].right != 0
    ensures f.nodes[s].left < f.nodes[s].right
  {
    hide Bin, Hi;
    var l, r, d := f.nodes[s].left, f.nodes[s].right, f.nodes[s].depth;
    assert NodeOk(f, s) && f.nodes[s].Kid(0) == l && f.nodes[s].Kid(1) == r;
    assert KidOk(f, s, 0) && KidOk(f, s, 1);
    assert NodeOk(f, l) && NodeOk(f, r);
    assert f.nodes[l].depth == d + 1 && f.nodes[r].depth == d + 1;
    KeyHalves(l, d);
    KeyHalves(r, d);
    if r <= l { HiMonotone(r, l, Width(l) - (d + 1)); }
  }

  lemma Kin(m: Mem, treemap: bv32, C: map<int, int>, f: Forest, q: Fifo, s: nat, k: nat)
    requires TreesOk(m, treemap, C, f, q) && s in f.nodes && k != 0 && (k == f.nodes[s].left || k == f.nodes[s].right)
    ensures var u, v := NodeAt(q, s), NodeAt(q, k);
      k in f.nodes && f.nodes[k].depth == f.nodes[s].depth + 1 && v != 0 && v != u && Rd(m, v + 48) == u
    ensures ChunkSize(Rd(m, NodeAt(q, k) + 8)) == k
  {
    hide LinksOk, RootsOk, HeadsOk, Places, ViewsOf, Bin, Key, Agree, Turn, LargeSize;
    TreeNode(m, treemap, C, f, q, s);
    TreeNode(m, treemap, C, f, q, k);
    assert NodeOk(f, s);
    assert KidOk(f, s, 0) && KidOk(f, s, 1);
    assert k in f.nodes && f.nodes[k].parent == s;
    assert NodeOk(f, k);
    KidsOf(f, s);
  }

  lemma NoKid(m: Mem, treemap: bv32, C: map<int, int>, f: Forest, q: Fifo)
    requires TreesOk(m, treemap, C, f, q)
    ensures NodeAt(q, 0) == 0
  {
    hide LinksOk, RootsOk, HeadsOk, Places, NodeOk;
    TreesKeys(m, treemap, C, f, q);
    NoZeroSize(f);
  }

  /** The parent of a node knows it. */
  lemma ParentKnows(m: Mem, treemap: bv32, C: map<int, int>, f: Forest, q: Fifo, s: nat)
    requires TreesOk(m, treemap, C, f, q) && s in f.nodes
    ensures var u := NodeAt(q, s); var p := Rd(m, u + 48);
      p != 0 && p != u && (Rd(m, p + 32) == u || Rd(m, p + 40) == u || Rd(m, p) == u)
  {
    hide LinksOk, HeadsOk, ViewsOf, Bin, Key, Agree, Turn, LargeSize, Marked, Apart;
    TreeNode(m, treemap, C, f, q, s);
    var n := f.nodes[s];
    assert NodeOk(f, s);
    if n.depth == 0 {
      HeapAbove(C, q, s);
    } else {
      TreeNode(m, treemap, C, f, q, n.parent);
      KidsOf(f, s);
    }
  }

  lemma HeapAbove(C: map<int, int>, q: Fifo, s: nat)
    requires Places(C, q) && s in q && q[s] != []
    ensures NodeAt(q, s) >= HEAP_MIN
  {
    assert q[s][0] in C;
  }

  /** A chunk of a size in the trees. */
  lemma InQueue(m: Mem, b: AllBins.BinState, h: Shape, leastAddr: int, s: nat, j: nat)
    requires Core(m, b, h, leastAddr) && s in b.fifo && j < |b.fifo[s]|
    ensures var p := b.fifo[s][j];
      && p in h.C && p !in h.U && h.C[p] == s && p in AllBins.Binned(b) && LargeSize(s)
      && Rd(m, p + 56) == Bin(s) && (j > 0 ==> Rd(m, p + 32) == 0 && Rd(m, p + 40) == 0 && Rd(m, p + 48) == 0)
  {
    hide TagsOk, SmallBins.SmallsOk, SmallBins.SmallMembers, Members, TreesOk, Bin, LargeSize;
    InLarge(b.fifo, b.fifo[s][j]);
    TreesPlaces(m, b.treemap, h.C, b.forest, b.fifo);
    TreesKeys(m, b.treemap, h.C, b.forest, b.fifo);
    TreeNode(m, b.treemap, h.C, b.forest, b.fifo, s);
    if j > 0 { ChainedWords(m, b.treemap, h.C, b.forest, b.fifo, s, j); }
  }

  lemma ChainedWords(m: Mem, treemap: bv32, C: map<int, int>, f: Forest, q: Fifo, s: nat, j: nat)
    requires TreesOk(m, treemap, C, f, q) && s in q && 0 < j < |q[s]|
    ensures var p := q[s][j];
      Rd(m, p + 32) == 0 && Rd(m, p + 40) == 0 && Rd(m, p + 48) == 0 && Rd(m, p + 56) == Bin(s)
  {
    hide TreesOk, NodeFields, LinksOk, Distinct, Bin;
    var V := ViewsOf(m, Large(C));
    assert LinksOk(V, f, q) by { TreesLinks(m, treemap, C, f, q); }
    LinksAt(V, f, q, s);
    NodeRing(V, f, q, s);
  }

  /** The part of do_check_tree that concerns every chunk of the chain. */
  method CheckChained(heap: Heap.Heap, u: int, tindex: int, tsize: int, ghost s: nat, ghost j: nat) returns (ok: bool)
    requires heap.Valid() && s in heap.tree.fifo && j < |heap.tree.fifo[s]| && u == heap.tree.fifo[s][j]
    requires tindex == Bin(s) && tsize == s
    ensures ok
  {
    hide AnyChecks, InuseChecks, FreeChecks, ChunkSize, IsInuse, IsMmapped, Pinuse, Cinuse, Head, AllBins.BinsOk,
      Spare, MarksOk, AllBins.Binned, TagsOk, Core, Bin;
    ghost var m, h, b := heap.arena.mem, heap.h, heap.Bins();
    SmallsAre(m, b, h, heap.Fields(), heap.arena.leastAddr);
    InQueue(m, b, h, heap.arena.leastAddr, s, j);
    HeadFacts(m, h, u);
    FootFacts(m, h, u);
    LinksAgree(m, b, h.C, heap.arena.leastAddr, u);
    AnyPasses(m, b, h, heap.Fields(), heap.arena.leastAddr, u);
    ok := CheckAnyChunk(heap, u);
    var w := Rd(heap.arena.mem, u + 8);
    var next, fd, bk := u + ChunkSize(w), Rd(heap.arena.mem, u + 16), Rd(heap.arena.mem, u + 24);
    ok := ok && Rd(heap.arena.mem, u + 56) == tindex && ChunkSize(w) == tsize && !IsInuse(w)
      && !Pinuse(Rd(heap.arena.mem, next + 8))
      && Rd(heap.arena.mem, fd + 24) == u && Rd(heap.arena.mem, bk + 16) == u;
  }

  /** The part of do_check_tree that concerns the one chunk of the chain that is a tree node. */
  method CheckNode(heap: Heap.Heap, u: int, ghost s: nat) returns (ok: bool)
    requires heap.Valid() && s in heap.tree.forest.nodes && u == NodeAt(heap.tree.fifo, s)
    ensures ok
    decreases 64 - PathDepth(heap.tree.forest, s), 0
  {
    hide ChunkSize, AllBins.BinsOk, Spare, MarksOk, AllBins.Binned, TagsOk, Core, Bin, TreesOk;
    ghost var m, C, f, q := heap.arena.mem, heap.h.C, heap.tree.forest, heap.tree.fifo;
    TreesAre(m, heap.Bins(), heap.h, heap.Fields(), heap.arena.leastAddr);
    ghost var n := f.nodes[s];
    ParentKnows(m, heap.tree.treemap, C, f, q, s);
    TreeNode(m, heap.tree.treemap, C, f, q, s);
    NoKid(m, heap.tree.treemap, C, f, q);
    DepthBound(f, s);
    var parent, left, right := Rd(heap.arena.mem, u + 48), Rd(heap.arena.mem, u + 32), Rd(heap.arena.mem, u + 40);
    ok := parent != u
      && (Rd(heap.arena.mem, parent + 32) == u || Rd(heap.arena.mem, parent + 40) == u
         || Rd(heap.arena.mem, parent) == u);
    if left != 0 {
      Kin(m, heap.tree.treemap, C, f, q, s, n.left);
      DepthBound(f, n.left);
      var below := CheckTree(heap, left, n.left);
      ok := ok && Rd(heap.arena.mem, left + 48) == u && left != u && below;
    }
    if right != 0 {
      Kin(m, heap.tree.treemap, C, f, q, s, n.right);
      DepthBound(f, n.right);
      var below := CheckTree(heap, right, n.right);
      ok := ok && Rd(heap.arena.mem, right + 48) == u && right != u && below;
    }
    if left != 0 && right != 0 {
      KidsInOrder(f, s);
      ok := ok && ChunkSize(Rd(heap.arena.mem, left + 8)) < ChunkSize(Rd(heap.arena.mem, right + 8));
    }
  }

  lemma DepthBound(f: Forest, s: nat)
    requires Ok(f) && s in f.nodes
    ensures f.nodes[s].depth < 64
  {
    hide Bin;
    NodeSize(f, s);
  }

  lemma TreesAre(m: Mem, b: AllBins.BinState, h: Shape, k: Marks, leastAddr: int)
    requires HeapOk(m, b, h, k, leastAddr, {})
    ensures TreesOk(m, b.treemap, h.C, b.forest, b.fifo) && Ok(b.forest) && b.fifo.Keys == b.forest.nodes.Keys
    ensures Core(m, b, h, leastAddr)
  {
    hide TagsOk, SmallBins.SmallsOk, Spare, LinksOk, RootsOk, HeadsOk, NodeOk;
    TreesKeys(m, b.treemap, h.C, b.forest, b.fifo);
  }

  /** do_check_tree */
  method CheckTree(heap: Heap.Heap, t: int, ghost s: nat) returns (ok: bool)
    requires heap.Valid() && s in heap.tree.forest.nodes && t == NodeAt(heap.tree.fifo, s)
    ensures ok
    decreases 64 - PathDepth(heap.tree.forest, s), 2
  {
    hide ChunkSize, AllBins.BinsOk, Spare, MarksOk, AllBins.Binned, TagsOk, Core, TreesOk, Ok;
    ghost var m, C, f, q, b := heap.arena.mem, heap.h.C, heap.tree.forest, heap.tree.fifo, heap.Bins();
    TreesAre(m, b, heap.h, heap.Fields(), heap.arena.leastAddr);
    TreeNode(m, heap.tree.treemap, C, f, q, s);
    TreeIndex.TreeIndexBrackets(s);
    var tindex, tsize := Rd(heap.arena.mem, t + 56), ChunkSize(Rd(heap.arena.mem, t + 8));
    var idx := TreeIndex.ComputeTreeIndex(tsize);
    ok := tindex == idx && tsize >= TreeIndex.MIN_LARGE_SIZE && tsize >= TreeIndex.MinSize(idx)
      && (idx == 31 || tsize < TreeIndex.MinSize(idx + 1));
    var chain := CheckChain(heap, t, tindex, tsize, s);
    ok := ok && chain;
  }

  /** do_check_tree, the loop over the chunks of one size. */
  method CheckChain(heap: Heap.Heap, t: int, tindex: int, tsize: int, ghost s: nat) returns (ok: bool)
    requires heap.Valid() && s in heap.tree.forest.nodes && t == NodeAt(heap.tree.fifo, s)
    requires tindex == Bin(s) && tsize == s
    ensures ok
    decreases 64 - PathDepth(heap.tree.forest, s), 1
  {
    hide ChunkSize, AllBins.BinsOk, Spare, MarksOk, AllBins.Binned, TagsOk, Core, TreesOk, Ok, Bin;
    ghost var m, C, f, q, b := heap.arena.mem, heap.h.C, heap.tree.forest, heap.tree.fifo, heap.Bins();
    TreesAre(m, b, heap.h, heap.Fields(), heap.arena.leastAddr);
    TreeNode(m, heap.tree.treemap, C, f, q, s);
    ghost var L, k := q[s], |q[s]|;
    var u, head := t, 0;
    ok := true;
    while true
      invariant 0 < k <= |L| && u == L[if k == |L| then 0 else k] && head == (if k == |L| then 0 else t) && ok
      decreases k
    {
      ghost var j := if k == |L| then 0 else k;
      var one := CheckChained(heap, u, tindex, tsize, s, j);
      InQueue(m, b, heap.h, heap.arena.leastAddr, s, j);
      ParentKnows(m, heap.tree.treemap, C, f, q, s);
      ok := ok && one;
      if Rd(heap.arena.mem, u + 48) == 0 {
        ok := ok && Rd(heap.arena.mem, u + 32) == 0 && Rd(heap.arena.mem, u + 40) == 0;
      } else {
        ok := ok && head == 0;
        head := u;
        var node := CheckNode(heap, u, s);
        ok := ok && node;
      }
      LargeNext(m, heap.tree.treemap, C, f, q, s, j);
      u := Rd(heap.arena.mem, u + 16);
      if u == t { break; }
      k := k - 1;
    }
    ok := ok && head != 0;
  }

  /** do_check_treebin */
  method CheckTreebin(heap: Heap.Heap, i: Index) returns (ok: bool)
    requires heap.Valid()
    ensures ok
  {
    hide ChunkSize, AllBins.BinsOk, Spare, MarksOk, AllBins.Binned, TagsOk, Core, TreesOk, Ok, Bin, Marked;
    ghost var m, C, f, q := heap.arena.mem, heap.h.C, heap.tree.forest, heap.tree.fifo;
    TreesAre(m, heap.Bins(), heap.h, heap.Fields(), heap.arena.leastAddr);
    RootOf(m, heap.tree.treemap, C, f, q, i);
    var t := Rd(heap.arena.mem, RootWord(i));
    var empty := !Marked(heap.tree.treemap, i);
    ok := t == 0 ==> empty;
    if !empty {
      var tree := CheckTree(heap, t, f.roots[i]);
      ok := ok && tree;
    }
  }

  lemma RootOf(m: Mem, treemap: bv32, C: map<int, int>, f: Forest, q: Fifo, i: Index)
    requires TreesOk(m, treemap, C, f, q)
    ensures |f.roots| == TreeIndex.NTREEBINS && Rd(m, RootWord(i)) == NodeAt(q, f.roots[i])
    ensures if Marked(treemap, i) then f.roots[i] in f.nodes && NodeAt(q, f.roots[i]) != 0
      else NodeAt(q, f.roots[i]) == 0
  {
    hide LinksOk, HeadsOk, NodeOk, Marked, Places, Bin;
    NoKid(m, treemap, C, f, q);
    if f.roots[i] != 0 { TreeNode(m, treemap, C, f, q, f.roots[i]); }
  }

  // ---------------------------------------------------------------------------------------
  // All chunks

  /** Where the walk through a segment ends: at top, or at the first fencepost. */
  ghost function WalkEnd(h: Shape, s: Segment): int {
    var f := First(s);
    if f in h.R then if h.top in h.C && Inside(h, h.top, f) then h.top else h.R[f] else f
  }

  /** The sizes of the chunks in the first n segments, without top. */
  ghost function Walked(h: Shape, segs: seq<Segment>, n: nat): int
    requires n <= |segs|
  {
    if n == 0 then 0 else Walked(h, segs, n - 1) + (WalkEnd(h, segs[n - 1]) - First(segs[n - 1]))
  }

  lemma WalkPlaces(m: Mem, h: Shape, segs: seq<Segment>, i: nat)
    requires TagsOk(m, h) && SegsOk(h, segs) && i < |segs|
    ensures var f, e := First(segs[i]), WalkEnd(h, segs[i]);
      && f in h.R && f in h.C && Inside(h, f, f) && f <= e <= h.R[f] && Pinuse(Rd(m, f + 8))
      && segs[i].base <= f && h.R[f] + 32 <= segs[i].End()
      && (e == h.top || (e == h.R[f] && Rd(m, e + 8) == FENCEPOST_HEAD && e !in h.C))
      && (h.top in h.C && Inside(h, h.top, f) ==> e == h.top)
      && (i == 0 ==> e == h.top && h.top in h.C && h.top + h.C[h.top] == segs[0].End() - TOP_FOOT_SIZE)
  {
    hide TagsOk, SegsApart, AllRegions, Head;
    var f := First(segs[i]);
    SegOf(h, segs, i);
    RegionFirst(m, h, f);
    AlignsUp(segs[i].base);
    TopRegion(m, h, segs);
    Tiling.RegionStart(m, h, f);
    HeadFacts(m, h, h.top);
    if !Inside(h, h.top, f) { NotTopEnd(m, h, f); }
  }

  lemma NotTopEnd(m: Mem, h: Shape, f: int)
    requires TagsOk(m, h) && f in h.R && h.top in h.C && !Inside(h, h.top, f)
    ensures Rd(m, h.R[f] + 8) == FENCEPOST_HEAD
  {
    hide ChunkOk, Apart;
    assert RegionOk(m, h, f);
    var g :| Inside(h, h.top, g);
    assert RegionOk(m, h, g);
  }

  /** The chunk behind q, or the end. */
  lemma WalkOn(m: Mem, h: Shape, segs: seq<Segment>, i: nat, q: int)
    requires TagsOk(m, h) && SegsOk(h, segs) && i < |segs| && q in h.C && Inside(h, q, First(segs[i]))
    requires q < WalkEnd(h, segs[i])
    ensures var f, e, n := First(segs[i]), WalkEnd(h, segs[i]), q + h.C[q];
      && q < n <= e && (n < e ==> n in h.C && Inside(h, n, f)) && SegHolds(segs[i], q) && q != h.top
    ensures Rd(m, q + 8) != FENCEPOST_HEAD
  {
    hide TagsOk, SegsOk, WalkEnd, Head;
    var f, e, n := First(segs[i]), WalkEnd(h, segs[i]), q + h.C[q];
    WalkPlaces(m, h, segs, i);
    HeadFacts(m, h, q);
    RegionFirst(m, h, f);
    if n != e {
      if e == h.top {
        WalkToTop(m, h, segs, i, q);
      } else {
        FootFacts(m, h, q);
        if n !in h.C { Tiling.NoEndInside(m, h, f, n); } else { StaysInside(m, h, f, n); }
      }
    }
  }

  lemma WalkToTop(m: Mem, h: Shape, segs: seq<Segment>, i: nat, q: int)
    requires TagsOk(m, h) && SegsOk(h, segs) && i < |segs| && q in h.C && Inside(h, q, First(segs[i]))
    requires q < WalkEnd(h, segs[i]) == h.top && q + h.C[q] != h.top
    ensures var n := q + h.C[q]; n in h.C && q < n < h.top && Inside(h, n, First(segs[i]))
  {
    hide TagsOk, SegsOk;
    WalkPlaces(m, h, segs, i);
    RegionFirst(m, h, First(segs[i]));
    TopIsChunk(m, h, segs, i);
    Tiling.NextStep(m, h, First(segs[i]), q, h.top);
  }

  lemma TopIsChunk(m: Mem, h: Shape, segs: seq<Segment>, i: nat)
    requires TagsOk(m, h) && SegsOk(h, segs) && i < |segs| && WalkEnd(h, segs[i]) == h.top
    ensures h.top in h.C && Inside(h, h.top, First(segs[i]))
  {
    hide TagsOk, SegsOk;
    WalkPlaces(m, h, segs, i);
    TopRegion(m, h, segs);
    RegionFirst(m, h, First(segs[i]));
  }

  /** traverse_and_check, on one chunk; lastq is the chunk before it. */
  method CheckTraversed(heap: Heap.Heap, q: int, lastq: int) returns (ok: bool)
    requires heap.Valid() && q in heap.h.C && q != heap.h.top
    requires lastq == 0 || (lastq in heap.h.C && lastq + heap.h.C[lastq] == q)
    ensures ok
  {
    hide AnyChecks, InuseChecks, FreeChecks, ChunkSize, IsInuse, Head, AllBins.BinsOk, Spare, MarksOk,
      AllBins.Binned, TagsOk, Core;
    ghost var m, h := heap.arena.mem, heap.h;
    SmallsAre(m, heap.Bins(), h, heap.Fields(), heap.arena.leastAddr);
    HeadFacts(m, h, q);
    if lastq != 0 {
      HeadFacts(m, h, lastq);
      NextFacts(m, h, lastq);
    }
    BinnedIs(m, heap.Bins(), h, heap.Fields(), heap.arena.leastAddr, q);
    var found := BinFind(heap, q);
    if IsInuse(Rd(heap.arena.mem, q + 8)) {
      InusePasses(m, heap.Bins(), h, heap.Fields(), heap.arena.leastAddr, q);
      ok := CheckInuseChunk(heap, q);
      ok := ok && !found;
    } else {
      FreePasses(m, heap.Bins(), h, heap.Fields(), heap.arena.leastAddr, q);
      ok := CheckFreeChunk(heap, q);
      ok := ok && (q == heap.dv || found);
      if lastq != 0 {
        ok := ok && IsInuse(Rd(heap.arena.mem, lastq + 8));
      }
    }
  }

  lemma BinnedIs(m: Mem, b: AllBins.BinState, h: Shape, k: Marks, leastAddr: int, p: int)
    requires HeapOk(m, b, h, k, leastAddr, {}) && p in h.C
    ensures p in AllBins.Binned(b) <==> p !in h.U && p != k.dv && p != k.top
    ensures k.top == h.top
  {
    hide TagsOk, AllBins.BinsOk, AllBins.Binned;
    if p !in h.U { FreeIsBinned(m, b, h, k, leastAddr, p); }
  }

  /** traverse_and_check, on one segment. */
  method CheckSegment(al: Allocator.Allocator, i: nat) returns (sum: int, ok: bool)
    requires al.Valid() && i < |al.segs|
    ensures ok && sum == WalkEnd(al.heap.h, al.segs[i]) - First(al.segs[i])
  {
    hide ChunkSize, Head, AllBins.BinsOk, Spare, MarksOk, AllBins.Binned, TagsOk, Core, HeapOk, SegsOk, MapsOk, HasAll,
      WalkEnd, LostOk, SegTotal, MapTotal, Kinds, MapsAbove, Pinuse;
    ghost var m, h := al.heap.arena.mem, al.heap.h;
    SmallsAre(m, al.heap.Bins(), h, al.heap.Fields(), al.heap.arena.leastAddr);
    TopField(m, al.heap.Bins(), h, al.heap.Fields(), al.heap.arena.leastAddr);
    WalkPlaces(m, h, al.segs, i);
    ghost var f, e := First(al.segs[i]), WalkEnd(h, al.segs[i]);
    var q, lastq := AlignAsChunk(al.segs[i].base), 0;
    sum, ok := 0, Pinuse(Rd(al.heap.arena.mem, q + 8));
    while SegHolds(al.segs[i], q) && q != al.heap.top && Rd(al.heap.arena.mem, q + 8) != FENCEPOST_HEAD
      invariant f <= q <= e && sum == q - f && ok && (q < e ==> q in h.C && Inside(h, q, f))
      invariant lastq == 0 || (lastq in h.C && lastq + h.C[lastq] == q)
      decreases e - q
    {
      WalkOn(m, h, al.segs, i, q);
      HeadFacts(m, h, q);
      var size := ChunkSize(Rd(al.heap.arena.mem, q + 8));
      sum := sum + size;
      var one := CheckTraversed(al.heap, q, lastq);
      ok := ok && one;
      lastq := q;
      q := q + size;
    }
    if q < e { WalkOn(m, h, al.segs, i, q); }
  }

  lemma TopField(m: Mem, b: AllBins.BinState, h: Shape, k: Marks, leastAddr: int)
    requires HeapOk(m, b, h, k, leastAddr, {})
    ensures k.top == h.top && (h.top in h.C ==> k.topsize == h.C[h.top])
  {
    hide Core, Spare;
  }

  /** traverse_and_check */
  method TraverseAndCheck(al: Allocator.Allocator) returns (sum: int, ok: bool)
    requires al.Valid()
    ensures ok
    ensures sum == if al.heap.top == 0 then 0
                   else al.heap.topsize + TOP_FOOT_SIZE + Walked(al.heap.h, al.segs, |al.segs|)
  {
    hide HeapOk, SegsOk, MapsOk, HasAll, WalkEnd, LostOk, SegTotal, MapTotal, Kinds, MapsAbove;
    sum, ok := 0, true;
    if al.heap.top != 0 {
      sum := al.heap.topsize + TOP_FOOT_SIZE;
      var i := 0;
      while i < |al.segs|
        invariant i <= |al.segs| && ok
        invariant sum == al.heap.topsize + TOP_FOOT_SIZE + Walked(al.heap.h, al.segs, i)
      {
        var n, one := CheckSegment(al, i);
        sum, ok, i := sum + n, ok && one, i + 1;
      }
    }
  }

  // ---------------------------------------------------------------------------------------
  // All of malloc_state

  lemma {:induction false} SegTotalSplit(segs: seq<Segment>, n: nat)
    requires n < |segs|
    ensures SegTotal(segs[..n + 1]) == SegTotal(segs[..n]) + segs[n].size
  {
    if n == 0 {
      assert segs[..1][1..] == [];
    } else {
      assert segs[..n + 1][1..] == segs[1..][..n] && segs[..n][1..] == segs[1..][..n - 1];
      SegTotalSplit(segs[1..], n - 1);
    }
  }

  /** The chunks take no more than their segments. */
  lemma {:induction false} WalkFits(m: Mem, h: Shape, segs: seq<Segment>, n: nat)
    requires TagsOk(m, h) && SegsOk(h, segs) && 0 < n <= |segs| && h.top in h.C
    ensures h.C[h.top] + TOP_FOOT_SIZE + Walked(h, segs, n) <= SegTotal(segs[..n])
  {
    hide TagsOk, SegsOk, WalkEnd, Pinuse;
    WalkPlaces(m, h, segs, n - 1);
    SegTotalSplit(segs, n - 1);
    if n > 1 {
      WalkFits(m, h, segs, n - 1);
    } else {
    }
  }

  /** do_check_top_chunk, and the other checks on top. */
  method CheckTop(al: Allocator.Allocator) returns (ok: bool)
    requires al.Valid() && al.heap.top != 0
    ensures ok
  {
    hide AnyChecks, InuseChecks, FreeChecks, ChunkSize, Head, AllBins.BinsOk, Spare, MarksOk, AllBins.Binned, TagsOk,
      Core, HeapOk, SegsOk, MapsOk, HasAll, LostOk, SegTotal, MapTotal, Kinds, MapsAbove, WalkEnd;
    var heap := al.heap;
    ghost var m, h := heap.arena.mem, heap.h;
    SmallsAre(m, heap.Bins(), h, heap.Fields(), heap.arena.leastAddr);
    TopField(m, heap.Bins(), h, heap.Fields(), heap.arena.leastAddr);
    TopPlace(m, heap.Bins(), h, heap.Fields(), heap.arena.leastAddr, al.segs);
    WalkPlaces(m, h, al.segs, 0);
    HeadFacts(m, h, h.top);
    NextFacts(m, h, h.top);
    BinnedIs(m, heap.Bins(), h, heap.Fields(), heap.arena.leastAddr, h.top);
    TopIsFree(m, h);
    HeadParts(heap.topsize, Rd(m, h.top + 8));
    var i := al.SegmentHolding(heap.top);
    assert SegHolds(al.segs[0], heap.top);
    var w := Rd(heap.arena.mem, heap.top + 8);
    var sz := w - w % 4;
    AnyPasses(m, heap.Bins(), h, heap.Fields(), heap.arena.leastAddr, heap.top);
    ok := CheckAnyChunk(heap, heap.top);
    var found := BinFind(heap, heap.top);
    ok := ok && i < |al.segs| && sz == heap.topsize && sz > 0
      && sz == al.segs[i].End() - heap.top - TOP_FOOT_SIZE
      && Pinuse(w) && !Pinuse(Rd(heap.arena.mem, heap.top + sz + 8)) && !found;
  }

  lemma TopIsFree(m: Mem, h: Shape)
    requires TagsOk(m, h) && h.top != 0
    ensures h.top !in h.U && h.top in h.C && h.top + h.C[h.top] !in h.C
  {
  }

  lemma HeadParts(s: int, w: int)
    requires w == Head(s, true, false) && s % 8 == 0
    ensures w - w % 4 == s
  {
    HeadWord(s, true, false);
  }

  /** The checks on dv. */
  method CheckDv(heap: Heap.Heap) returns (ok: bool)
    requires heap.Valid() && heap.dvsize != 0
    ensures ok
  {
    hide AnyChecks, InuseChecks, FreeChecks, ChunkSize, Head, AllBins.BinsOk, AllBins.Binned, TagsOk, Core, Spare;
    ghost var m, h := heap.arena.mem, heap.h;
    SmallsAre(m, heap.Bins(), h, heap.Fields(), heap.arena.leastAddr);
    HeadFacts(m, h, heap.dv);
    BinnedIs(m, heap.Bins(), h, heap.Fields(), heap.arena.leastAddr, heap.dv);
    AnyPasses(m, heap.Bins(), h, heap.Fields(), heap.arena.leastAddr, heap.dv);
    ok := CheckAnyChunk(heap, heap.dv);
    var found := BinFind(heap, heap.dv);
    ok := ok && heap.dvsize == ChunkSize(Rd(heap.arena.mem, heap.dv + 8)) && heap.dvsize >= MIN_CHUNK_SIZE && !found;
  }

  method CheckBins(heap: Heap.Heap) returns (ok: bool)
    requires heap.Valid()
    ensures ok
  {
    hide HeapOk;
    ok := true;
    for i: nat := 0 to 32
      invariant ok
    {
      var one := CheckSmallbin(heap, i);
      ok := ok && one;
    }
    for i: nat := 0 to 32
      invariant ok
    {
      var one := CheckTreebin(heap, i);
      ok := ok && one;
    }
  }

  /** do_check_malloc_state: all checks succeed, and what the walk adds up is at most the footprint. */
  method CheckMallocState(al: Allocator.Allocator) returns (total: int, ok: bool)
    requires al.Valid()
    ensures ok && total <= al.footprint <= al.maxFootprint
  {
    hide HeapOk, SegsOk, MapsOk, HasAll, WalkEnd, LostOk, SegTotal, MapTotal, Kinds, MapsAbove, TagsOk;
    ok := CheckBins(al.heap);
    if al.heap.dvsize != 0 {
      var one := CheckDv(al.heap);
      ok := ok && one;
    }
    if al.heap.top != 0 {
      var one := CheckTop(al);
      ok := ok && one && al.heap.topsize > 0;
    }
    var one;
    total, one := TraverseAndCheck(al);
    TotalFits(al.heap.arena.mem, al.heap.Bins(), al.heap.h, al.heap.Fields(), al.heap.arena.leastAddr, al.segs, al.maps,
              al.os.granted);
    ok := ok && one && total <= al.footprint && al.footprint <= al.maxFootprint;
  }

  lemma TotalFits(m: Mem, b: AllBins.BinState, h: Shape, k: Marks, leastAddr: int, segs: seq<Segment>, maps: Mappings,
                  granted: set<int>)
    requires HeapOk(m, b, h, k, leastAddr, {}) && SpaceOk(m, h, segs, maps, granted)
    ensures 0 <= MapTotal(maps) && 0 <= SegTotal(segs) && (k.top != 0 ==> k.topsize > 0)
    ensures k.top != 0 ==> k.topsize + TOP_FOOT_SIZE + Walked(h, segs, |segs|) <= SegTotal(segs)
  {
    hide HeapOk, SegsOk, MapsOk, HasAll, TagsOk, WalkEnd, SegTotal, SizesOf;
    SmallsAre(m, b, h, k, leastAddr);
    HeldIsSized(m, h, segs, maps);
    SegTotalNat(segs);
    SizesNat(maps, maps.Keys);
    TopPlace(m, b, h, k, leastAddr, segs);
    if k.top != 0 {
      WalkFits(m, h, segs, |segs|);
      assert segs[..|segs|] == segs;
    }
  }
}
