/** The treebins in memory: the invariant that ties root words, treemap and chunk fields to the
    shape of the tries, and what each pointer operation does to it.  The operations themselves are
    in TreeBins.dfy. */
module TreeState {
  import opened Words
  import opened BinMap
  import TreeIndex
  import opened Trie
  import opened BestFit
  import opened ChunkMemory
  import opened Lists
  import opened TreeLinks

  /** Chunks lie above the static words and do not overlap. */
  ghost predicate Apart(C: map<int, int>) {
    && (forall p | p in C :: p >= HEAP_MIN && C[p] > 0)
    && (forall p, q | p in C && q in C && p < q :: p + C[p] <= q)
  }

  ghost function Large(C: map<int, int>): set<int> {
    set p | p in C && C[p] >= TreeIndex.MIN_LARGE_SIZE
  }

  /** treemap marks the bins that have a root, and the root words hold those roots. */
  ghost predicate RootsOk(m: Mem, treemap: bv32, f: Forest, q: Fifo) {
    && |f.roots| == TreeIndex.NTREEBINS
    && forall i: Index :: Rd(m, RootWord(i)) == NodeAt(q, f.roots[i]) && (Marked(treemap, i) <==> f.roots[i] != 0)
  }

  ghost predicate HeadsOk(m: Mem, q: Fifo) {
    forall s | s in q :: forall k | 0 <= k < |q[s]| :: ChunkSize(Rd(m, q[s][k] + 8)) == s
  }

  ghost predicate TreesOk(m: Mem, treemap: bv32, C: map<int, int>, f: Forest, q: Fifo) {
    && Ok(f) && Places(C, q) && Apart(C)
    && LinksOk(ViewsOf(m, Large(C)), f, q)
    && RootsOk(m, treemap, f, q) && HeadsOk(m, q)
  }

  ghost predicate Reachable(q: Fifo, leastAddr: int) {
    forall s | s in q :: forall k | 0 <= k < |q[s]| :: leastAddr <= q[s][k]
  }

  /** All chunks held by the treebins. */
  ghost function Members(q: Fifo): set<int> {
    set s, k | s in q && 0 <= k < |q[s]| :: q[s][k]
  }

  lemma LargeSpaced(C: map<int, int>)
    requires Apart(C)
    ensures Spaced(Large(C))
  {
  }

  lemma LargeSpacedIn(m: Mem, treemap: bv32, C: map<int, int>, f: Forest, q: Fifo)
    requires TreesOk(m, treemap, C, f, q)
    ensures Spaced(Large(C)) && Members(q) <= C.Keys
  {
    LargeSpaced(C);
  }

  lemma LinksKeys(V: Views, f: Forest, q: Fifo)
    requires LinksOk(V, f, q)
    ensures q.Keys == f.nodes.Keys
  {
  }

  lemma TreesForest(m: Mem, treemap: bv32, C: map<int, int>, f: Forest, q: Fifo)
    requires TreesOk(m, treemap, C, f, q)
    ensures Ok(f)
  {
  }

  lemma TreesKeys(m: Mem, treemap: bv32, C: map<int, int>, f: Forest, q: Fifo)
    requires TreesOk(m, treemap, C, f, q)
    ensures q.Keys == f.nodes.Keys
  {
  }

  lemma TreesPlaces(m: Mem, treemap: bv32, C: map<int, int>, f: Forest, q: Fifo)
    requires TreesOk(m, treemap, C, f, q)
    ensures Places(C, q)
  {
  }

  lemma ReachNode(q: Fifo, u: nat, leastAddr: int)
    requires Reachable(q, leastAddr) && u in q && q[u] != []
    ensures q[u][0] >= leastAddr
  {
    assert 0 < |q[u]|;
  }

  // ---------------------------------------------------------------------------------------
  // Frames

  lemma TouchedHeads(m: Mem, m': Mem, C: map<int, int>, free: set<int>, p: int)
    requires Apart(C) && p in C && Touched(m, m', C, free, TREEBINS, TREEBINS + 256)
    ensures Rd(m', p + 8) == Rd(m, p + 8)
  {
    forall r | r in free ensures !(r + 16 <= p + 8 < r + C[r]) {
    }
  }

  lemma TouchedHeadsOk(m: Mem, m': Mem, C: map<int, int>, free: set<int>, q: Fifo)
    requires Apart(C) && Places(C, q) && Touched(m, m', C, free, TREEBINS, TREEBINS + 256) && HeadsOk(m, q)
    ensures HeadsOk(m', q)
  {
    forall s, k | s in q && 0 <= k < |q[s]| ensures ChunkSize(Rd(m', q[s][k] + 8)) == s {
      TouchedHeads(m, m', C, free, q[s][k]);
    }
  }

  /** Fields of chunks outside the queues do not matter. */
  lemma LinksFrame(V: Views, f: Forest, q: Fifo, V': Views)
    requires LinksOk(V, f, q)
    requires forall s | s in q :: forall k | 0 <= k < |q[s]| :: q[s][k] in V ==>
      q[s][k] in V' && V'[q[s][k]] == V[q[s][k]]
    ensures LinksOk(V', f, q)
  {
    forall t | t in f.nodes ensures NodeFields(V', f, q, t) {
      assert NodeFields(V, f, q, t);
      NodeInViews(V, f, q, t);
      FieldsFrame(V, f, q, V', f, q, t);
    }
  }

  // ---------------------------------------------------------------------------------------
  // What memory holds

  /** What memory holds for the tree node of size u. */
  lemma TreeNode(m: Mem, treemap: bv32, C: map<int, int>, f: Forest, q: Fifo, u: nat)
    requires TreesOk(m, treemap, C, f, q) && u in f.nodes
    ensures u in q && q[u] != [] && q[u][0] in C && C[q[u][0]] == u && LargeSize(u)
    ensures var T, n := NodeAt(q, u), f.nodes[u];
      && T == q[u][0] && T in Large(C) && T != 0 && T in Members(q)
      && ChunkSize(Rd(m, T + 8)) == u
      && Rd(m, T + 32) == NodeAt(q, n.left) && Rd(m, T + 40) == NodeAt(q, n.right)
      && Rd(m, T + 48) == ParentAt(f, q, u) && Rd(m, T + 56) == Bin(u)
      && Rd(m, T + 16) == q[u][|q[u]| - 1] && Rd(m, T + 24) == Nxt(q[u], 0)
      && q[u][|q[u]| - 1] in Large(C) && Nxt(q[u], 0) in Large(C)
      && (n.left != 0 ==> n.left in f.nodes) && (n.right != 0 ==> n.right in f.nodes)
      && (n.depth > 0 ==> n.parent in f.nodes)
  {
    hide Bin, Key, Turn, Ok, LinksOk, RootsOk, HeadsOk, NodeFields, ViewsOf, Places;
    NodeSize(f, u);
    KidsOf(f, u);
    QueuePlaces(C, f, q, u, ViewsOf(m, Large(C)));
    NodeWords(m, Large(C), f, q, u);
    NodeHead(m, q, u);
  }

  lemma QueuePlaces(C: map<int, int>, f: Forest, q: Fifo, u: nat, V: Views)
    requires Places(C, q) && Apart(C) && LinksOk(V, f, q) && u in f.nodes && LargeSize(u)
    ensures u in q && q[u] != [] && NodeAt(q, u) == q[u][0] && q[u][0] in C && C[q[u][0]] == u && q[u][0] != 0
    ensures q[u][0] in Members(q) && NodeFields(V, f, q, u)
    ensures q[u][0] in Large(C) && q[u][|q[u]| - 1] in Large(C) && Nxt(q[u], 0) in Large(C)
  {
    hide Bin, RootWord;
    assert NodeFields(V, f, q, u);
  }

  lemma NodeHead(m: Mem, q: Fifo, u: nat)
    requires HeadsOk(m, q) && u in q && q[u] != []
    ensures ChunkSize(Rd(m, q[u][0] + 8)) == u
  {
    assert 0 <= 0 < |q[u]|;
  }

  lemma NodeWords(m: Mem, L: set<int>, f: Forest, q: Fifo, u: nat)
    requires u in f.nodes && u in q && NodeFields(ViewsOf(m, L), f, q, u)
    ensures var T, n := NodeAt(q, u), f.nodes[u];
      && Rd(m, T + 32) == NodeAt(q, n.left) && Rd(m, T + 40) == NodeAt(q, n.right)
      && Rd(m, T + 48) == ParentAt(f, q, u) && Rd(m, T + 56) == Bin(u)
      && Rd(m, T + 16) == q[u][|q[u]| - 1] && Rd(m, T + 24) == Nxt(q[u], 0)
  {
    hide Bin, Chained;
  }

  /** What memory holds for a chunk in the ring of size s. */
  lemma RingNode(m: Mem, treemap: bv32, C: map<int, int>, f: Forest, q: Fifo, s: nat, x: int, leastAddr: int)
    requires TreesOk(m, treemap, C, f, q) && s in q && x in q[s] && Reachable(q, leastAddr)
    ensures var L := q[s]; var j := IndexOf(L, x);
      && Rd(m, x + 24) == Nxt(L, j) && Rd(m, x + 16) == Prv(L, j)
      && Rd(m, Nxt(L, j) + 16) == x && Rd(m, Prv(L, j) + 24) == x
      && x in Large(C) && Nxt(L, j) in Large(C) && Prv(L, j) in Large(C)
      && Nxt(L, j) in Members(q) && Prv(L, j) in Members(q)
      && Prv(L, j) >= leastAddr && (Nxt(L, j) == x <==> |L| == 1)
  {
    hide Ok, Bin, Apart, HeadsOk, RootsOk, Ring, ViewsOf;
    RingInside(m, C, f, q, s);
    RingWords(m, Large(C), q[s], IndexOf(q[s], x));
  }

  lemma RingInside(m: Mem, C: map<int, int>, f: Forest, q: Fifo, s: nat)
    requires LinksOk(ViewsOf(m, Large(C)), f, q) && s in q
    ensures Ring(ViewsOf(m, Large(C)), q[s]) && forall k | 0 <= k < |q[s]| :: q[s][k] in Large(C)
  {
    hide Bin, Ring;
    assert NodeFields(ViewsOf(m, Large(C)), f, q, s);
    NodeInViews(ViewsOf(m, Large(C)), f, q, s);
  }

  lemma RingWords(m: Mem, ps: set<int>, L: seq<int>, j: nat)
    requires Ring(ViewsOf(m, ps), L) && j < |L|
    ensures Rd(m, L[j] + 24) == Nxt(L, j) && Rd(m, L[j] + 16) == Prv(L, j)
    ensures Rd(m, Nxt(L, j) + 16) == L[j] && Rd(m, Prv(L, j) + 24) == L[j]
  {
    var k := if j + 1 < |L| then j + 1 else 0;
    var h := if j > 0 then j - 1 else |L| - 1;
    assert L[k] == Nxt(L, j) && L[h] == Prv(L, j);
    assert Prv(L, k) == L[j] && Nxt(L, h) == L[j];
  }

  // ---------------------------------------------------------------------------------------
  // Insertion

  /** x is a chunk of size s in no queue. */
  ghost predicate Loose(m: Mem, C: map<int, int>, q: Fifo, x: int, s: nat) {
    x in C && C[x] == s && LargeSize(s) && x !in Queue(q, s) && ChunkSize(Rd(m, x + 8)) == s
  }

  lemma LooseInLarge(m: Mem, treemap: bv32, C: map<int, int>, f: Forest, q: Fifo, x: int, s: nat)
    requires TreesOk(m, treemap, C, f, q) && Loose(m, C, q, x, s)
    ensures x in Large(C) && Spaced(Large(C)) && x >= HEAP_MIN
  {
    LargeSpaced(C);
  }

  /** The fields of x are those of a node before it is linked. */
  ghost predicate Blank(m: Mem, C: map<int, int>, x: int, i: int) {
    x in Large(C) && var v := ViewsOf(m, Large(C))[x]; v.index == i && v.left == 0 && v.right == 0
  }

  lemma BlankView(m: Mem, C: map<int, int>, x: int, i: int)
    requires Blank(m, C, x, i)
    ensures x in Large(C) && var v := ViewsOf(m, Large(C))[x]; v.index == i && v.left == 0 && v.right == 0
  {
  }

  lemma NodeInitialised(m: Mem, treemap: bv32, C: map<int, int>, f: Forest, q: Fifo, x: int, s: nat, i: int, m': Mem)
    requires TreesOk(m, treemap, C, f, q) && Loose(m, C, q, x, s) && x in Large(C)
    requires m' == m[x + 56 := i][x + 40 := 0][x + 32 := 0]
    requires ViewsOf(m', Large(C)) == ViewsOf(m,
                                              Large(C))[x := ViewsOf(m, Large(C))[x].(index := i,
                                                left := 0, right := 0)]
    ensures TreesOk(m', treemap, C, f, q) && Loose(m', C, q, x, s) && Blank(m', C, x, i)
    ensures Touched(m, m', C, {x}, TREEBINS, TREEBINS + 256)
  {
    hide Ok, LinksOk, ViewsOf;
    TouchedHeadsOk(m, m', C, {x}, q);
    TouchedHeads(m, m', C, {x}, x);
    LinksFrame(ViewsOf(m, Large(C)), f, q, ViewsOf(m', Large(C)));
  }

  lemma HeadsAfterInsert(m: Mem, q: Fifo, s: nat, x: int)
    requires HeadsOk(m, q) && ChunkSize(Rd(m, x + 8)) == s
    ensures HeadsOk(m, q[s := Queue(q, s) + [x]])
  {
  }

  lemma RootAdded(m: Mem, treemap: bv32, f: Forest, q: Fifo, C: map<int, int>, x: int, s: nat, i: Index, m': Mem)
    requires TreesOk(m, treemap, C, f, q) && Loose(m, C, q, x, s) && i == Bin(s) && !Marked(treemap, i)
    requires m' == m[RootWord(i) := x][x + 48 := RootWord(i)][x + 24 := x][x + 16 := x]
    requires x in Large(C) && ViewsOf(m', Large(C)) == ViewsOf(m, Large(C))[x := Links(x, x, 0, 0, RootWord(i), i)]
    ensures |f.roots| == TreeIndex.NTREEBINS && TreesOk(m', Mark(treemap, i), C, AddRoot(f, s), q[s := [x]])
    ensures Queue(q, s) + [x] == [x]
    ensures Touched(m, m', C, {x}, TREEBINS, TREEBINS + 256)
  {
    hide Ok, LinksOk, Mark, AddRoot, NodeOk, ViewsOf, HeadsOk;
    if s in f.nodes { UnderRoot(f, s); }
    assert q.Keys == f.nodes.Keys by { LinksKeys(ViewsOf(m, Large(C)), f, q); }
    AddRootOk(f, s);
    NewRootOk(ViewsOf(m, Large(C)), C, f, q, s, x, ViewsOf(m', Large(C)));
    RootsAfterRoot(m, treemap, f, q, s, i, x, m');
    TouchedHeadsOk(m, m', C, {x}, q);
    TouchedHeads(m, m', C, {x}, x);
    HeadsAfterInsert(m', q, s, x);
    ChainPlaces(C, q, s, x);
    assert Queue(q, s) + [x] == [x];
  }

  lemma RootsAfterRoot(m: Mem, treemap: bv32, f: Forest, q: Fifo, s: nat, i: Index, x: int, m': Mem)
    requires Ok(f) && RootsOk(m, treemap, f, q) && s !in q && s != 0 && i == Bin(s) && x >= HEAP_MIN
    requires m' == m[RootWord(i) := x][x + 48 := RootWord(i)][x + 24 := x][x + 16 := x]
    ensures RootsOk(m', Mark(treemap, i), AddRoot(f, s), q[s := [x]])
  {
    hide NodeOk, Mark, Marked;
    forall j: Index
      ensures var g := AddRoot(f, s);
        Rd(m', RootWord(j)) == NodeAt(q[s := [x]], g.roots[j]) && (Marked(Mark(treemap, i), j) <==> g.roots[j] != 0)
    {
      MarkSets(treemap, i, j);
    }
  }

  lemma LeafAdded(m: Mem, treemap: bv32, C: map<int, int>, f: Forest, q: Fifo, x: int, s: nat, u: nat, T: int,
                  b: nat, m': Mem)
    requires TreesOk(m, treemap, C, f, q) && Loose(m, C, q, x, s) && u in f.nodes && s !in f.nodes && T == NodeAt(q, u)
    requires Agree(s, u, f.nodes[u].depth) && b == Turn(s, f.nodes[u].depth) && f.nodes[u].Kid(b) == 0
    requires m' == m[T + 32 + 8 * b := x][x + 48 := T][x + 24 := x][x + 16 := x]
    requires x in Large(C) && T in Large(C)
    requires ViewsOf(m', Large(C)) ==
      ViewsOf(m, Large(C))[T := ViewsOf(m, Large(C))[T].SetKid(b, x)][x := Links(x, x, 0, 0, T, Bin(s))]
    ensures TreesOk(m', treemap, C, AddLeaf(f, s, u), q[s := [x]]) && Queue(q, s) + [x] == [x]
    ensures Touched(m, m', C, Members(q) + {x}, TREEBINS, TREEBINS + 256)
  {
    hide Ok, LinksOk, AddLeaf, NodeOk, ViewsOf, RootsOk, HeadsOk, Touched, Agree, Turn, Bin;
    TreeNode(m, treemap, C, f, q, u);
    assert q.Keys == f.nodes.Keys by { LinksKeys(ViewsOf(m, Large(C)), f, q); }
    AddLeafOk(f, s, u);
    NewLeafOk(ViewsOf(m, Large(C)), C, f, q, s, u, x, ViewsOf(m', Large(C)));
    LeafTouches(m, C, q, x, T, b, m');
    RootsAfterLeaf(m, treemap, f, q, s, u, x, m');
    TouchedHeadsOk(m, m', C, Members(q) + {x}, q);
    TouchedHeads(m, m', C, Members(q) + {x}, x);
    HeadsAfterInsert(m', q, s, x);
    ChainPlaces(C, q, s, x);
    assert Queue(q, s) + [x] == [x];
  }

  lemma LeafTouches(m: Mem, C: map<int, int>, q: Fifo, x: int, T: int, b: nat, m': Mem)
    requires Places(C, q) && x in C && T in C && T in Members(q) && C[x] >= 64 && C[T] >= 64 && b < 2
    requires m' == m[T + 32 + 8 * b := x][x + 48 := T][x + 24 := x][x + 16 := x]
    ensures Touched(m, m', C, Members(q) + {x}, TREEBINS, TREEBINS + 256)
  {
    assert Members(q) <= C.Keys;
  }

  lemma RootsAfterLeaf(m: Mem, treemap: bv32, f: Forest, q: Fifo, s: nat, u: nat, x: int, m': Mem)
    requires Ok(f) && RootsOk(m, treemap, f, q) && s !in q && s != 0 && u in f.nodes && q.Keys == f.nodes.Keys
    requires forall i: Index :: Rd(m', RootWord(i)) == Rd(m, RootWord(i))
    ensures RootsOk(m', treemap, AddLeaf(f, s, u), q[s := [x]])
  {
    hide NodeOk, Marked;
  }

  lemma ChainAdded(m: Mem, treemap: bv32, C: map<int, int>, f: Forest, q: Fifo, x: int, s: nat, m': Mem)
    requires TreesOk(m, treemap, C, f, q) && Loose(m, C, q, x, s) && s in f.nodes && s in q && q[s] != []
    requires var T, F := q[s][0], q[s][|q[s]| - 1];
      && m' == m[F + 24 := x][T + 16 := x][x + 16 := F][x + 24 := T][x + 48 := 0]
      && T in Large(C) && F in Large(C) && x in Large(C)
      && var V := ViewsOf(m, Large(C));
         var W := V[F := V[F].(bk := x)];
         V[x].left == 0 && V[x].right == 0 && V[x].index == Bin(s)
         && ViewsOf(m', Large(C)) == W[T := W[T].(fd := x)][x := V[x].(fd := F, bk := T, parent := 0)]
    ensures TreesOk(m', treemap, C, f, q[s := q[s] + [x]])
    ensures Touched(m, m', C, Members(q) + {x}, TREEBINS, TREEBINS + 256)
  {
    hide Ok, LinksOk, NodeOk, ViewsOf, RootsOk, HeadsOk, Touched, Bin;
    ghost var V, V' := ViewsOf(m, Large(C)), ViewsOf(m', Large(C));
    ghost var U := V[x := V[x].(parent := 0)];
    LinksFrame(V, f, q, U);
    ChainOk(U, C, f, q, s, x, V');
    ChainTouches(m, C, q, x, s, m');
    RootsAfterChain(m, treemap, f, q, s, x, m');
    TouchedHeadsOk(m, m', C, Members(q) + {x}, q);
    TouchedHeads(m, m', C, Members(q) + {x}, x);
    HeadsAfterInsert(m', q, s, x);
    ChainPlaces(C, q, s, x);
  }

  lemma ChainTouches(m: Mem, C: map<int, int>, q: Fifo, x: int, s: nat, m': Mem)
    requires Places(C, q) && x in C && C[x] >= 64 && s in q && q[s] != [] && s >= 64
    requires var T, F := q[s][0], q[s][|q[s]| - 1];
      m' == m[F + 24 := x][T + 16 := x][x + 16 := F][x + 24 := T][x + 48 := 0]
    ensures Touched(m, m', C, Members(q) + {x}, TREEBINS, TREEBINS + 256)
  {
    assert Members(q) <= C.Keys;
    assert q[s][0] in Members(q) && q[s][|q[s]| - 1] in Members(q);
  }

  lemma RootsAfterChain(m: Mem, treemap: bv32, f: Forest, q: Fifo, s: nat, x: int, m': Mem)
    requires RootsOk(m, treemap, f, q) && s in q && q[s] != []
    requires forall i: Index :: Rd(m', RootWord(i)) == Rd(m, RootWord(i))
    ensures RootsOk(m', treemap, f, q[s := q[s] + [x]])
  {
    hide Marked;
    var q' := q[s := q[s] + [x]];
    assert forall u :: NodeAt(q', u) == NodeAt(q, u);
  }

  // ---------------------------------------------------------------------------------------
  // The walk towards a size

  /** The walk towards size s has reached the node of size u; the sign bit of K is the next turn. */
  ghost predicate OnPath(f: Forest, s: nat, u: nat, K: nat) {
    && u in f.nodes && Agree(s, u, f.nodes[u].depth)
    && f.nodes[u].depth + 3 <= Width(s)
    && (s in f.nodes ==> f.nodes[u].depth <= f.nodes[s].depth)
    && K == SignWord(s, Width(s) - 1 - f.nodes[u].depth)
  }

  ghost function PathDepth(f: Forest, u: nat): nat {
    if u in f.nodes then f.nodes[u].depth else 0
  }

  lemma PathStarts(m: Mem, treemap: bv32, C: map<int, int>, f: Forest, q: Fifo, s: nat, T: int, K: nat) returns (u: nat)
    requires TreesOk(m, treemap, C, f, q) && LargeSize(s) && Marked(treemap, Bin(s))
    requires T == Rd(m, RootWord(Bin(s))) && K == Shl(s, TreeIndex.LeftShift(Bin(s)))
    ensures u == f.roots[Bin(s)] && u in f.nodes && T == NodeAt(q, u) && OnPath(f, s, u, K)
  {
    hide LinksOk, HeadsOk, Key;
    u := f.roots[Bin(s)];
    assert Marked(treemap, Bin(s)) <==> f.roots[Bin(s)] != 0;
    NodeSize(f, u);
    AgreeOnce(s, u);
  }

  /** One step of the walk: the sign bit of K is the turn of s, and the child it selects is again
      on the path; if there is none, size s is not present. */
  lemma PathStep(m: Mem, treemap: bv32, C: map<int, int>, f: Forest, q: Fifo, s: nat, u: nat, T: int, K: nat)
    requires TreesOk(m, treemap, C, f, q) && u in f.nodes && T == NodeAt(q, u) && OnPath(f, s, u, K)
    requires LargeSize(s) && u != s
    ensures var d := f.nodes[u].depth;
      var b := K / 0x8000_0000_0000_0000;
      && d + 4 <= Width(s) && Agree(s, u, d) && b == Turn(s, d)
      && Rd(m, T + 32 + 8 * b) == NodeAt(q, f.nodes[u].Kid(b))
      && if NodeAt(q, f.nodes[u].Kid(b)) != 0
         then OnPath(f, s, f.nodes[u].Kid(b), Wrap(K * 2))
              && f.nodes[u].Kid(b) in f.nodes && f.nodes[f.nodes[u].Kid(b)].depth == d + 1
         else f.nodes[u].Kid(b) == 0 && s !in f.nodes
  {
    hide TreesOk, Agree, SignWord, Bin;
    var d := f.nodes[u].depth;
    assert Ok(f) by { TreesForest(m, treemap, C, f, q); }
    NodeSize(f, u);
    assert Bin(u) == Bin(s) by { AgreeBin(s, u, d); }
    RoomBelow(s, u, d);
    TurnAtSign(s, d, K);
    var b := Turn(s, d);
    TreeNode(m, treemap, C, f, q, u);
    var k := f.nodes[u].Kid(b);
    PathKid(f, s, u);
    if k != 0 {
      TreeNode(m, treemap, C, f, q, k);
    } else {
      NoZeroSize(f);
      TreesKeys(m, treemap, C, f, q);
    }
  }

  lemma AgreeBin(s: nat, u: nat, d: nat)
    requires Agree(s, u, d)
    ensures Bin(s) == Bin(u)
  {
  }

  lemma TurnAtSign(s: nat, d: nat, K: nat)
    requires d + 4 <= Width(s) && K == SignWord(s, Width(s) - 1 - d)
    ensures K / 0x8000_0000_0000_0000 == Turn(s, d)
    ensures Wrap(K * 2) == SignWord(s, Width(s) - 2 - d)
  {
    hide Hi, Bin;
    var e := Width(s) - 1 - d;
    SignBit(s, e);
  }

  lemma PathKid(f: Forest, s: nat, u: nat)
    requires Ok(f) && u in f.nodes && LargeSize(s) && s != u && Agree(s, u, f.nodes[u].depth)
    requires f.nodes[u].depth + 4 <= Width(s)
    requires s in f.nodes ==> f.nodes[u].depth <= f.nodes[s].depth
    ensures var d := f.nodes[u].depth;
      var k := f.nodes[u].Kid(Turn(s, d));
      if k != 0 then k in f.nodes && f.nodes[k].depth == d + 1 && Agree(s, k, d + 1)
                     && (s in f.nodes ==> f.nodes[k].depth <= f.nodes[s].depth)
      else s !in f.nodes
  {
    hide Key, Bin;
    var d := f.nodes[u].depth;
    var k := f.nodes[u].Kid(Turn(s, d));
    if s in f.nodes {
      if f.nodes[s].depth == d { OnePlace(f, s, u); } else { KidTowards(f, s, u); }
    }
    if k != 0 {
      KidIsUnder(f, u, Turn(s, d));
      AgreeMore(s, k, d);
    }
  }

  // ---------------------------------------------------------------------------------------
  // Removal

  /** Only link words of the binned chunks changed, and no static word. */
  ghost predicate Untouched(m: Mem, m': Mem, C: map<int, int>, q: Fifo) {
    && Touched(m, m', C, Members(q), TREEBINS, TREEBINS + 256)
    && forall i: Index :: Rd(m', RootWord(i)) == Rd(m, RootWord(i))
  }

  lemma RingUnlinked(m: Mem, treemap: bv32, C: map<int, int>, f: Forest, q: Fifo, s: nat, x: int, m': Mem)
    requires TreesOk(m, treemap, C, f, q) && s in q && x in q[s] && |q[s]| > 1
    requires var j := IndexOf(q[s], x);
      var F, R := Prv(q[s], j), Nxt(q[s], j);
      && F in Large(C) && R in Large(C) && F in Members(q) && R in Members(q)
      && m' == m[F + 24 := R][R + 16 := F]
      && var V := ViewsOf(m, Large(C));
         var W := V[F := V[F].(bk := R)];
         ViewsOf(m', Large(C)) == W[R := W[R].(fd := F)]
    ensures Unlinked(ViewsOf(m, Large(C)), q[s], IndexOf(q[s], x), ViewsOf(m', Large(C)))
    ensures Untouched(m, m', C, q)
  {
    hide Bin, TreesOk, ViewsOf, Untouched, Large;
    var j := IndexOf(q[s], x);
    TreesPlaces(m, treemap, C, f, q);
    RingTouches(m, C, q, Prv(q[s], j), Nxt(q[s], j), m');
  }

  lemma RingTouches(m: Mem, C: map<int, int>, q: Fifo, F: int, R: int, m': Mem)
    requires Places(C, q) && F in Members(q) && R in Members(q) && F in Large(C) && R in Large(C)
    requires m' == m[F + 24 := R][R + 16 := F]
    ensures Untouched(m, m', C, q)
  {
    hide Bin;
    assert Members(q) <= C.Keys;
    assert F >= HEAP_MIN && R >= HEAP_MIN;
  }

  /** R, of size r, is a proper descendant of the node of size s, and rp's child field holds it. */
  ghost predicate Replacement(f: Forest, q: Fifo, s: nat, r: nat, R: int, rp: int, side: nat) {
    && s in f.nodes && r in f.nodes && f.nodes[r].depth > f.nodes[s].depth && Under(f, r, s)
    && R == NodeAt(q, r) && rp == NodeAt(q, f.nodes[r].parent) && side == Turn(r, f.nodes[r].depth - 1)
  }

  lemma LeafByFields(m: Mem, treemap: bv32, C: map<int, int>, f: Forest, q: Fifo, u: nat)
    requires TreesOk(m, treemap, C, f, q) && u in f.nodes
    requires NodeAt(q, f.nodes[u].left) == 0 && NodeAt(q, f.nodes[u].right) == 0
    ensures IsLeaf(f, u)
  {
    hide TreesOk, Bin;
    TreesForest(m, treemap, C, f, q);
    KidsOf(f, u);
    if f.nodes[u].left != 0 { TreeNode(m, treemap, C, f, q, f.nodes[u].left); }
    if f.nodes[u].right != 0 { TreeNode(m, treemap, C, f, q, f.nodes[u].right); }
  }

  lemma FirstKid(m: Mem, treemap: bv32, C: map<int, int>, f: Forest, q: Fifo, s: nat, b: nat)
    requires TreesOk(m, treemap, C, f, q) && s in f.nodes && b < 2 && NodeAt(q, f.nodes[s].Kid(b)) != 0
    ensures var k := f.nodes[s].Kid(b);
      k in f.nodes && Replacement(f, q, s, k, NodeAt(q, k), NodeAt(q, s), b) && f.nodes[k].depth <= 64
  {
    hide TreesOk, Bin, Key;
    TreesForest(m, treemap, C, f, q);
    TreesKeys(m, treemap, C, f, q);
    NoZeroSize(f);
    KidIsUnder(f, s, b);
    KidsOf(f, s);
  }

  lemma UnderTrans(f: Forest, t: nat, r: nat, s: nat)
    requires Ok(f) && r in f.nodes && s in f.nodes && Under(f, t, r) && Under(f, r, s)
    ensures Under(f, t, s)
  {
    hide Key, Bin;
    assert NodeOk(f, t);
    AgreeLess(t, r, f.nodes[r].depth, f.nodes[s].depth);
  }

  lemma NextKid(m: Mem, treemap: bv32, C: map<int, int>, f: Forest, q: Fifo, s: nat, r: nat, R: int, rp: int,
                side: nat, b: nat)
    requires TreesOk(m, treemap, C, f, q) && Replacement(f, q, s, r, R, rp, side) && b < 2
    requires r in f.nodes && NodeAt(q, f.nodes[r].Kid(b)) != 0
    ensures var k := f.nodes[r].Kid(b);
      && k in f.nodes && Replacement(f, q, s, k, NodeAt(q, k), R, b)
      && f.nodes[k].depth == f.nodes[r].depth + 1 && f.nodes[k].depth <= 64
  {
    hide TreesOk, Bin, Key;
    TreesForest(m, treemap, C, f, q);
    TreesKeys(m, treemap, C, f, q);
    NoZeroSize(f);
    FirstKid(m, treemap, C, f, q, r, b);
    var k := f.nodes[r].Kid(b);
    KidIsUnder(f, r, b);
    UnderTrans(f, k, r, s);
  }

  /** The state of the treebins while R = L[0] is about to take the place of X. */
  ghost predicate VacantTrees(m: Mem, treemap: bv32, C: map<int, int>, f: Forest, q: Fifo, s: nat, X: int,
                              r: nat, L: seq<int>) {
    && Ok(f) && Places(C, q) && Apart(C)
    && Vacant(ViewsOf(m, Large(C)), f, q, s, X, r, L)
    && RootsOk(m, treemap, f, q) && HeadsOk(m, q)
    && (forall p | p in L :: p in Large(C) && C[p] == r && ChunkSize(Rd(m, p + 8)) == r)
    && LargeSize(r) && Bin(r) == Bin(s) && Agree(r, s, f.nodes[s].depth) && f.nodes[s].depth + 3 <= Width(r)
    && q[s] != [] && Rd(m, X + 56) == Bin(s)
  }

  ghost predicate ParentRelinked(m: Mem, C: map<int, int>, f: Forest, s: nat, XP: int, X: int, R: int, m': Mem)
    requires s in f.nodes
  {
    if f.nodes[s].depth == 0 then m' == m[RootWord(Bin(s)) := R]
    else XP in Large(C) && m' == m[XP + 32 + 8 * (if Rd(m, XP + 32) == X then 0 else 1) := R]
  }

  ghost function ParentView(V: Views, f: Forest, s: nat, XP: int, X: int, R: int): Views
    requires s in f.nodes
  {
    if f.nodes[s].depth == 0 || XP !in V then V
    else V[XP := V[XP].SetKid(if V[XP].left == X then 0 else 1, R)]
  }

  lemma RootWordLow(i: Index)
    ensures TREEBINS <= RootWord(i) < TREEBINS + 256
  {
  }

  lemma VacantWords(m: Mem, treemap: bv32, C: map<int, int>, f: Forest, q: Fifo, s: nat, X: int, r: nat,
                    L: seq<int>, leastAddr: int)
    requires VacantTrees(m, treemap, C, f, q, s, X, r, L) && Reachable(q, leastAddr)
    ensures s in f.nodes && Spaced(Large(C)) && L != [] && L[0] in Large(C) && L[0] != 0
    ensures Rd(m, X + 56) == Bin(s) && X in Large(C) && ViewsOf(m, Large(C))[X] == ViewOf(m, X)
    ensures f.nodes[s].depth == 0 <==> Rd(m, RootWord(Bin(s))) == X
    ensures Rd(m, X + 48) == ParentAt(f, q, s)
    ensures f.nodes[s].depth > 0 ==>
      var XP := Rd(m, X + 48);
      XP in Large(C) && XP >= leastAddr && XP == NodeAt(q, f.nodes[s].parent)
        && Rd(m, XP + 32) == ViewsOf(m, Large(C))[XP].left
  {
    hide VacantTrees, Vacant, Agree, Bin, ViewsOf, Reachable;
    VacantBasics(m, treemap, C, f, q, s, X, r, L);
    VacantRoot(m, treemap, C, f, q, s, X, r, L);
    if f.nodes[s].depth > 0 { VacantParent(m, treemap, C, f, q, s, X, r, L, leastAddr); }
  }

  lemma VacantBasics(m: Mem, treemap: bv32, C: map<int, int>, f: Forest, q: Fifo, s: nat, X: int, r: nat, L: seq<int>)
    requires VacantTrees(m, treemap, C, f, q, s, X, r, L)
    ensures s in f.nodes && Ok(f) && Spaced(Large(C)) && L != [] && L[0] in Large(C) && L[0] != 0
    ensures Rd(m, X + 56) == Bin(s) && X in Large(C) && ViewsOf(m, Large(C))[X] == ViewOf(m, X)
    ensures Rd(m, X + 48) == ParentAt(f, q, s)
  {
    hide Ok, HeadsOk, RootsOk, Places, Agree, Bin, NodeFields, Ring, Chained, Distinct;
    LargeSpaced(C);
    assert L[0] in L;
  }

  lemma VacantParent(m: Mem, treemap: bv32, C: map<int, int>, f: Forest, q: Fifo, s: nat, X: int, r: nat,
                     L: seq<int>, leastAddr: int)
    requires VacantTrees(m, treemap, C, f, q, s, X, r, L) && Reachable(q, leastAddr) && s in f.nodes
      && f.nodes[s].depth > 0
    ensures var XP := NodeAt(q, f.nodes[s].parent);
      ParentAt(f, q, s) == XP && XP in Large(C) && XP >= leastAddr && Rd(m, XP + 32) == ViewsOf(m, Large(C))[XP].left
  {
    hide HeadsOk, RootsOk, Agree, Bin, NodeFields, Ring, Chained, Distinct, Reachable;
    KidsOf(f, s);
    var p := f.nodes[s].parent;
    PlaceOf(ViewsOf(m, Large(C)), C, f, q, s, X, r, L, p);
    ReachNode(q, p, leastAddr);
    NodeSize(f, p);
  }

  lemma VacantRoot(m: Mem, treemap: bv32, C: map<int, int>, f: Forest, q: Fifo, s: nat, X: int, r: nat, L: seq<int>)
    requires VacantTrees(m, treemap, C, f, q, s, X, r, L)
    ensures f.nodes[s].depth == 0 <==> Rd(m, RootWord(Bin(s))) == X
  {
    hide HeadsOk, Agree, Bin, NodeFields, Ring, Chained, Key;
    assert NodeOk(f, s);
    NodeSize(f, s);
    var u := f.roots[Bin(s)];
    UnderRoot(f, s);
    if u != s { PlaceOf(ViewsOf(m, Large(C)), C, f, q, s, X, r, L, u); }
    assert q[s][0] in C && C[q[s][0]] == s;
  }

  ghost function KidMem(m: Mem, X: int, R: int, b: int): Mem {
    var c := Rd(m, X + 32 + 8 * b);
    if c != 0 then m[R + 32 + 8 * b := c][c + 48 := R] else m
  }

  /** The words after R has taken over the parent and the children of X. */
  ghost function KidsMem(m: Mem, X: int, R: int, XP: int): Mem {
    KidMem(KidMem(m[R + 48 := XP], X, R, 0), X, R, 1)
  }

  ghost function TakeKid(V: Views, X: int, R: int, b: int): Views
    requires X in V && R in V
  {
    var c := V[X].Kid(b);
    if c == 0 || c !in V then V
    else
      var W := V[R := V[R].SetKid(b, c)];
      W[c := W[c].(parent := R)]
  }

  ghost function KidsView(V: Views, X: int, R: int, XP: int): Views
    requires X in V && R in V
  {
    TakeKid(TakeKid(V[R := V[R].(parent := XP)], X, R, 0), X, R, 1)
  }

  /** The child b of X is a chunk other than X and R. */
  ghost predicate KidApart(V: Views, X: int, R: int, b: int) {
    X in V && R in V && X != R
    && var c := V[X].Kid(b); (c != 0 ==> c in V && c != X && c != R)
  }

  ghost predicate KidsApart(V: Views, X: int, R: int) {
    KidApart(V, X, R, 0) && KidApart(V, X, R, 1)
  }

  lemma VacantKids(m: Mem, treemap: bv32, C: map<int, int>, f: Forest, q: Fifo, s: nat, X: int, r: nat,
                   L: seq<int>, leastAddr: int)
    requires VacantTrees(m, treemap, C, f, q, s, X, r, L) && Reachable(q, leastAddr) && s in f.nodes && L != []
    ensures KidsApart(ParentView(ViewsOf(m, Large(C)), f, s, Rd(m, X + 48), X, L[0]), X, L[0])
    ensures var v := ParentView(ViewsOf(m, Large(C)), f, s, Rd(m, X + 48), X, L[0])[X];
      (v.left != 0 ==> v.left >= leastAddr) && (v.right != 0 ==> v.right >= leastAddr)
  {
    hide VacantTrees, Vacant, Reachable, Ok;
    ghost var V := ViewsOf(m, Large(C));
    VacantBasics(m, treemap, C, f, q, s, X, r, L);
    VacantNeighbours(m, treemap, C, f, q, s, X, r, L);
    VacantKidsReach(m, treemap, C, f, q, s, X, r, L, leastAddr);
  }

  lemma VacantKidsReach(m: Mem, treemap: bv32, C: map<int, int>, f: Forest, q: Fifo, s: nat, X: int, r: nat,
                        L: seq<int>, leastAddr: int)
    requires VacantTrees(m, treemap, C, f, q, s, X, r, L) && Reachable(q, leastAddr) && s in f.nodes && L != []
    ensures var V := ViewsOf(m, Large(C));
      && X in V && L[0] in V
      && (V[X].left != 0 ==> V[X].left >= leastAddr && V[X].left != L[0] && V[X].left in V)
      && (V[X].right != 0 ==> V[X].right >= leastAddr && V[X].right != L[0] && V[X].right in V)
  {
    hide HeadsOk, RootsOk, Agree, Bin, NodeFields, Ring, Chained, Distinct, Reachable;
    KidsOf(f, s);
    var n := f.nodes[s];
    var V := ViewsOf(m, Large(C));
    assert L[0] in L;
    if n.left != 0 {
      PlaceOf(V, C, f, q, s, X, r, L, n.left); NodeSize(f, n.left); ReachNode(q, n.left, leastAddr);
    }
    if n.right != 0 {
      PlaceOf(V, C, f, q, s, X, r, L, n.right); NodeSize(f, n.right); ReachNode(q, n.right, leastAddr);
    }
  }

  /** The updates of the relinking steps add up to the replacement of X by R. */
  lemma StepsReplace(V: Views, C: map<int, int>, f: Forest, q: Fifo, s: nat, X: int, r: nat, L: seq<int>)
    requires Ok(f) && Places(C, q) && Vacant(V, f, q, s, X, r, L) && 0 !in V
    requires KidsApart(ParentView(V, f, s, V[X].parent, X, L[0]), X, L[0])
    requires V.Keys == Large(C)
    ensures Replaced(V, f, q, s, X, L[0], KidsView(ParentView(V, f, s, V[X].parent, X, L[0]), X, L[0], V[X].parent))
  {
    hide Bin, NodeFields, Ring, Chained, Distinct, Ok;
    KidsOf(f, s);
    var n := f.nodes[s];
    assert L[0] in L;
    if n.left != 0 { PlaceOf(V, C, f, q, s, X, r, L, n.left); }
    if n.right != 0 { PlaceOf(V, C, f, q, s, X, r, L, n.right); }
    if n.depth > 0 { PlaceOf(V, C, f, q, s, X, r, L, n.parent); NodeSize(f, n.parent); }
  }

  ghost function Elems(L: seq<int>): set<int> {
    set p | p in L
  }

  lemma RenewedPlaces(m: Mem, treemap: bv32, C: map<int, int>, f: Forest, q: Fifo, s: nat, X: int, r: nat, L: seq<int>)
    requires VacantTrees(m, treemap, C, f, q, s, X, r, L)
    ensures Places(C, Renewed(q, s, r, L)) && q.Keys == f.nodes.Keys && s in f.nodes && (r == s || r !in f.nodes)
    ensures Members(q) + Elems(L) <= C.Keys && L != []
    ensures forall p | p in L :: ChunkSize(Rd(m, p + 8)) == r
  {
    hide Ok, HeadsOk, RootsOk, Agree, Bin, NodeFields, Ring, Chained, LargeSize;
    forall k | 0 <= k < |L| ensures L[k] in C && C[L[k]] == r && L[k] >= HEAP_MIN {
      assert L[k] in L;
    }
  }

  /** Only link words of the chunks in free changed. */
  ghost predicate Quiet(m: Mem, m': Mem, C: map<int, int>, free: set<int>) {
    && free <= C.Keys
    && forall a {:trigger Rd(m', a)} :: (forall p | p in free :: !(p + 16 <= a < p + C[p])) ==> Rd(m', a) == Rd(m, a)
  }

  lemma QuietRoots(m: Mem, m': Mem, C: map<int, int>, free: set<int>, i: Index)
    requires Apart(C) && Quiet(m, m', C, free)
    ensures Rd(m', RootWord(i)) == Rd(m, RootWord(i))
  {
  }

  lemma QuietTouches(m: Mem, m1: Mem, m2: Mem, C: map<int, int>, free: set<int>)
    requires Touched(m, m1, C, free, TREEBINS, TREEBINS + 256) && Quiet(m1, m2, C, free)
    ensures Touched(m, m2, C, free, TREEBINS, TREEBINS + 256)
  {
  }

  /** A chunk whose link words may be written. */
  ghost predicate Writable(C: map<int, int>, free: set<int>, p: int) {
    p in free && p in Large(C)
  }

  lemma KidsQuiet(m: Mem, C: map<int, int>, free: set<int>, X: int, R: int, XP: int)
    requires Spaced(Large(C)) && X in Large(C) && X != R && free <= C.Keys && Writable(C, free, R)
    requires Rd(m, X + 32) != 0 ==> Writable(C, free, Rd(m, X + 32)) && Rd(m, X + 32) != X
    requires Rd(m, X + 40) != 0 ==> Writable(C, free, Rd(m, X + 40)) && Rd(m, X + 40) != X
    ensures Quiet(m, KidsMem(m, X, R, XP), C, free)
  {
    var a := m[R + 48 := XP];
    assert Quiet(m, a, C, free) && Rd(a, X + 32) == Rd(m, X + 32) && Rd(a, X + 40) == Rd(m, X + 40) by {
    }
    var b := KidMem(a, X, R, 0);
  }

  /** What memory holds for x while its place is vacant. */
  lemma VacantNeighbours(m: Mem, treemap: bv32, C: map<int, int>, f: Forest, q: Fifo, s: nat, X: int,
                         r: nat, L: seq<int>)
    requires VacantTrees(m, treemap, C, f, q, s, X, r, L) && s in f.nodes && L != []
    ensures var V := ViewsOf(m, Large(C));
      var free := Members(q) + Elems(L);
      && X in Large(C) && X != L[0] && Writable(C, free, L[0])
      && (V[X].left != 0 ==> Writable(C, free, V[X].left) && V[X].left != X)
      && (V[X].right != 0 ==> Writable(C, free, V[X].right) && V[X].right != X)
      && (f.nodes[s].depth > 0 ==> Writable(C, free, V[X].parent) && V[X].parent != X)
  {
    hide HeadsOk, RootsOk, Agree, Bin, NodeFields, Ring, Chained, Distinct;
    KidsOf(f, s);
    var n := f.nodes[s];
    var V := ViewsOf(m, Large(C));
    assert L[0] in L;
    if n.left != 0 { PlaceOf(V, C, f, q, s, X, r, L, n.left); NodeSize(f, n.left); }
    if n.right != 0 { PlaceOf(V, C, f, q, s, X, r, L, n.right); NodeSize(f, n.right); }
    if n.depth > 0 { PlaceOf(V, C, f, q, s, X, r, L, n.parent); NodeSize(f, n.parent); }
  }

  lemma ParentTouches(m: Mem, C: map<int, int>, f: Forest, s: nat, XP: int, X: int, R: int, m1: Mem, free: set<int>)
    requires s in f.nodes && ParentRelinked(m, C, f, s, XP, X, R, m1) && Spaced(Large(C)) && X in Large(C)
      && free <= C.Keys
    requires f.nodes[s].depth > 0 ==> Writable(C, free, XP) && XP != X
    ensures Touched(m, m1, C, free, TREEBINS, TREEBINS + 256)
    ensures forall i: Index :: Rd(m1, RootWord(i)) == if f.nodes[s].depth == 0 && i == Bin(s) then R
      else Rd(m, RootWord(i))
    ensures Rd(m1, X + 32) == Rd(m, X + 32) && Rd(m1, X + 40) == Rd(m, X + 40)
  {
    hide Bin;
  }

  /** The words written by the relinking steps. */
  lemma RelinkTouches(m: Mem, treemap: bv32, C: map<int, int>, f: Forest, q: Fifo, s: nat, X: int, r: nat, L: seq<int>,
                      m1: Mem, m': Mem)
    requires VacantTrees(m, treemap, C, f, q, s, X, r, L) && s in f.nodes && L != []
    requires ParentRelinked(m, C, f, s, Rd(m, X + 48), X, L[0], m1)
    requires m' == KidsMem(m1, X, L[0], Rd(m, X + 48))
    ensures Touched(m, m', C, Members(q) + Elems(L), TREEBINS, TREEBINS + 256)
    ensures forall i: Index :: Rd(m', RootWord(i)) == if f.nodes[s].depth == 0 && i == Bin(s) then L[0]
      else Rd(m, RootWord(i))
  {
    hide VacantTrees, Touched, Quiet, ParentRelinked, KidsMem, Bin;
    ghost var free := Members(q) + Elems(L);
    RenewedPlaces(m, treemap, C, f, q, s, X, r, L);
    VacantBasics(m, treemap, C, f, q, s, X, r, L);
    VacantNeighbours(m, treemap, C, f, q, s, X, r, L);
    ParentTouches(m, C, f, s, Rd(m, X + 48), X, L[0], m1, free);
    KidsQuiet(m1, C, free, X, L[0], Rd(m, X + 48));
    QuietTouches(m, m1, m', C, free);
    assert Apart(C) by { VacantApart(m, treemap, C, f, q, s, X, r, L); }
    forall i: Index ensures Rd(m', RootWord(i)) == Rd(m1, RootWord(i)) {
      QuietRoots(m1, m', C, free, i);
    }
  }

  lemma VacantApart(m: Mem, treemap: bv32, C: map<int, int>, f: Forest, q: Fifo, s: nat, X: int, r: nat, L: seq<int>)
    requires VacantTrees(m, treemap, C, f, q, s, X, r, L)
    ensures Apart(C) && Ok(f) && Places(C, q) && HeadsOk(m, q) && RootsOk(m, treemap, f, q)
    ensures Vacant(ViewsOf(m, Large(C)), f, q, s, X, r, L)
    ensures 0 !in ViewsOf(m, Large(C)) && LargeSize(r) && Bin(r) == Bin(s)
  {
    LargeSpaced(C);
  }

  lemma RelinkRoots(m: Mem, treemap: bv32, f: Forest, q: Fifo, s: nat, r: nat, L: seq<int>, g: Forest, m': Mem)
    requires Ok(f) && RootsOk(m, treemap, f, q) && s in f.nodes && (r == s || r !in f.nodes) && L != [] && r != 0
    requires q.Keys == f.nodes.Keys && L[0] != 0
    requires forall i: Index :: Rd(m', RootWord(i)) == if f.nodes[s].depth == 0 && i == Bin(s) then L[0]
      else Rd(m, RootWord(i))
    requires g.roots == (if f.nodes[s].depth == 0 then f.roots[Bin(s) := r] else f.roots)
    ensures RootsOk(m', treemap, g, Renewed(q, s, r, L))
  {
    hide Marked, Bin, Key;
    NoZeroSize(f);
    assert NodeOk(f, s);
    forall i: Index
      ensures Rd(m', RootWord(i)) == NodeAt(Renewed(q, s, r, L), g.roots[i])
        && (Marked(treemap, i) <==> g.roots[i] != 0)
    {
      assert Rd(m, RootWord(i)) == NodeAt(q, f.roots[i]);
    }
  }

  /** Relinking restores the invariant, with the ring L as the queue of size r. */
  lemma Relinked(m: Mem, treemap: bv32, C: map<int, int>, f: Forest, q: Fifo, s: nat, X: int, r: nat, L: seq<int>,
                 g: Forest, m1: Mem, m': Mem)
    requires VacantTrees(m, treemap, C, f, q, s, X, r, L) && s in f.nodes && L != []
    requires Ok(g) && Renamed(f, s, r, g)
      && g.roots == (if f.nodes[s].depth == 0 then f.roots[Bin(s) := r] else f.roots)
    requires ParentRelinked(m, C, f, s, Rd(m, X + 48), X, L[0], m1)
    requires m' == KidsMem(m1, X, L[0], Rd(m, X + 48))
    requires KidsApart(ParentView(ViewsOf(m, Large(C)), f, s, Rd(m, X + 48), X, L[0]), X, L[0])
    requires ViewsOf(m', Large(C)) ==
      KidsView(ParentView(ViewsOf(m, Large(C)), f, s, Rd(m, X + 48), X, L[0]), X, L[0], Rd(m, X + 48))
    ensures TreesOk(m', treemap, C, g, Renewed(q, s, r, L))
    ensures Touched(m, m', C, Members(q) + Elems(L), TREEBINS, TREEBINS + 256)
  {
    hide VacantTrees, Touched, ParentRelinked, KidsMem, KidsView, ParentView, KidsApart, Bin, Vacant, Replaced, Renamed,
      LinksOk, RootsOk, Ok, Places, ViewsOf;
    RenewedPlaces(m, treemap, C, f, q, s, X, r, L);
    VacantBasics(m, treemap, C, f, q, s, X, r, L);
    VacantApart(m, treemap, C, f, q, s, X, r, L);
    RelinkTouches(m, treemap, C, f, q, s, X, r, L, m1, m');
    StepsReplace(ViewsOf(m, Large(C)), C, f, q, s, X, r, L);
    ReplaceLinks(ViewsOf(m, Large(C)), C, f, q, s, X, r, L, ViewsOf(m', Large(C)), g);
    RelinkRoots(m, treemap, f, q, s, r, L, g, m');
    RelinkHeads(m, C, q, s, r, L, m');
  }

  lemma RelinkHeads(m: Mem, C: map<int, int>, q: Fifo, s: nat, r: nat, L: seq<int>, m': Mem)
    requires Apart(C) && Places(C, Renewed(q, s, r, L)) && HeadsOk(m, q)
      && forall p | p in L :: ChunkSize(Rd(m, p + 8)) == r
    requires Touched(m, m', C, Members(q) + Elems(L), TREEBINS, TREEBINS + 256)
    ensures HeadsOk(m', Renewed(q, s, r, L))
  {
    forall t, k | t in Renewed(q, s, r, L) && 0 <= k < |Renewed(q, s, r, L)[t]|
      ensures ChunkSize(Rd(m', Renewed(q, s, r, L)[t][k] + 8)) == t
    {
      TouchedHeads(m, m', C, Members(q) + Elems(L), Renewed(q, s, r, L)[t][k]);
      if t == r { assert L[k] in L; }
    }
  }

  // ---------------------------------------------------------------------------------------
  // The three ways to vacate or drop a node

  /** The tree node leaves a ring of several chunks: the next oldest one will take its place. */
  lemma UnchainVacant(m: Mem, treemap: bv32, C: map<int, int>, f: Forest, q: Fifo, s: nat, x: int, m': Mem)
    requires TreesOk(m, treemap, C, f, q) && s in q && |q[s]| > 1 && x == q[s][0]
    requires Unlinked(ViewsOf(m, Large(C)), q[s], 0, ViewsOf(m', Large(C))) && Untouched(m, m', C, q)
    ensures VacantTrees(m', treemap, C, f, q, s, x, s, Without(q[s], 0))
    ensures Without(q[s], 0)[0] == Nxt(q[s], 0)
    ensures Rd(m', x + 48) == Rd(m, x + 48)
  {
    hide Ok, Bin, Unlinked, Untouched, LinksOk, NodeFields, Vacant, Places, HeadsOk, RootsOk, Apart, Distinct,
      LargeSize;
    LinksKeys(ViewsOf(m, Large(C)), f, q);
    TreeNode(m, treemap, C, f, q, s);
    NodeSize(f, s);
    UntouchedParts(m, m', treemap, C, f, q);
    UnchainedPlace(ViewsOf(m, Large(C)), C, f, q, s, ViewsOf(m', Large(C)));
    RestHeads(m', C, f, q, s, ViewsOf(m, Large(C)));
    UnlinkedFields(ViewsOf(m, Large(C)), q[s], 0, ViewsOf(m', Large(C)));
  }

  lemma UntouchedParts(m: Mem, m': Mem, treemap: bv32, C: map<int, int>, f: Forest, q: Fifo)
    requires Apart(C) && Places(C, q) && HeadsOk(m, q) && RootsOk(m, treemap, f, q) && Untouched(m, m', C, q)
    ensures HeadsOk(m', q) && RootsOk(m', treemap, f, q)
  {
    TouchedHeadsOk(m, m', C, Members(q), q);
  }

  lemma RestHeads(m: Mem, C: map<int, int>, f: Forest, q: Fifo, s: nat, V: Views)
    requires HeadsOk(m, q) && Places(C, q) && s in q && |q[s]| > 1 && s in f.nodes && LargeSize(s)
    ensures forall p | p in Without(q[s], 0) :: p in Large(C) && C[p] == s && ChunkSize(Rd(m, p + 8)) == s
  {
    forall p | p in Without(q[s], 0) ensures p in Large(C) && C[p] == s && ChunkSize(Rd(m, p + 8)) == s {
      assert p in q[s];
    }
  }

  /** The chunks behind the first have no tree links. */
  lemma RestChained(V: Views, f: Forest, q: Fifo, s: nat, V': Views)
    requires s in f.nodes && s in q && NodeFields(V, f, q, s) && |q[s]| > 1 && Unlinked(V, q[s], 0, V')
    requires forall p | p in q[s] :: p in V
    ensures var L := Without(q[s], 0);
      L == q[s][1..] && L != [] && L[0] in V' && Chained(V', L, Bin(s)) && V'[L[0]].index == Bin(s)
        && V'[L[0]].left == 0 && V'[L[0]].right == 0
  {
    hide Bin, Unlinked, Ring;
    var L := Without(q[s], 0);
    UnlinkedFields(V, q[s], 0, V');
    assert L == q[s][1..];
    forall k | 0 <= k < |L| ensures L[k] in V' && V'[L[k]].left == 0 && V'[L[k]].right == 0
        && V'[L[k]].parent == 0 && V'[L[k]].index == Bin(s) {
      assert L[k] == q[s][k + 1];
    }
  }

  lemma OtherQueues(C: map<int, int>, q: Fifo, s: nat, t: nat)
    requires Places(C, q) && s in q && t in q && t != s
    ensures forall p | p in q[s] :: p !in q[t]
  {
    forall p | p in q[s] ensures p !in q[t] { assert C[p] == s; }
  }

  lemma UnchainedPlace(V: Views, C: map<int, int>, f: Forest, q: Fifo, s: nat, V': Views)
    requires LinksOk(V, f, q) && Places(C, q) && s in q && |q[s]| > 1 && V.Keys == Large(C)
    requires Unlinked(V, q[s], 0, V')
    ensures Vacant(V', f, q, s, q[s][0], s, Without(q[s], 0))
  {
    hide Bin, Unlinked, LinksOk, ParentAt, Chained, Without, Distinct, NodeFields;
    LinksKeys(V, f, q);
    LinksAt(V, f, q, s);
    NodeInViews(V, f, q, s);
    UnlinkedRing(V, q[s], 0, V');
    UnlinkedFields(V, q[s], 0, V');
    RestChained(V, f, q, s, V');
    WithoutDistinct(q[s], 0);
    forall t | t in f.nodes && t != s
      ensures NodeFields(V', f, q, t) && forall p | p in Without(q[s], 0) :: p !in q[t] {
      UnchainedNeighbour(V, C, f, q, s, V', t);
      OtherQueues(C, q, s, t);
    }
  }

  lemma LinksAt(V: Views, f: Forest, q: Fifo, s: nat)
    requires LinksOk(V, f, q) && s in q
    ensures s in f.nodes && NodeFields(V, f, q, s)
  {
  }

  lemma UnchainedNeighbour(V: Views, C: map<int, int>, f: Forest, q: Fifo, s: nat, V': Views, t: nat)
    requires LinksOk(V, f, q) && Places(C, q) && s in q && |q[s]| > 1
    requires Unlinked(V, q[s], 0, V') && t in f.nodes && t != s
    ensures NodeFields(V', f, q, t)
  {
    hide Bin, Unlinked, NodeFields;
    LinksAt(V, f, q, t);
    NodeInViews(V, f, q, t);
    UnlinkedFields(V, q[s], 0, V');
    FieldsFrame(V, f, q, V', f, q, t);
  }

  /** A leaf below x has been cut off and will take the place of x. */
  lemma CutVacant(m: Mem, treemap: bv32, C: map<int, int>, f: Forest, q: Fifo, s: nat, x: int, r: nat, R: int, rp: int,
                  side: nat, m': Mem)
    requires TreesOk(m, treemap, C, f, q) && s in f.nodes && x == NodeAt(q, s)
    requires Replacement(f, q, s, r, R, rp, side) && IsLeaf(f, r) && rp in Large(C)
    requires m' == m[rp + 32 + 8 * side := 0]
    requires ViewsOf(m', Large(C)) == ViewsOf(m, Large(C))[rp := ViewsOf(m, Large(C))[rp].SetKid(side, 0)]
    ensures |f.roots| == TreeIndex.NTREEBINS && r in q && q[r] != [] && q[r][0] == R && r != s
    ensures r !in CutLeaf(f, r).nodes
    ensures VacantTrees(m', treemap, C, CutLeaf(f, r), q - {r}, s, x, r, q[r])
    ensures Rd(m', x + 48) == Rd(m, x + 48)
    ensures Touched(m, m', C, Members(q), TREEBINS, TREEBINS + 256)
  {
    hide Bin, LinksOk, NodeFields, Vacant, HeadsOk, RootsOk, CutLeaf, Places, Agree, Turn, Touched, NodeOk, Ok,
      LargeSize, TreesOk, Replacement, Apart;
    CutBasics(m, treemap, C, f, q, s, x, r, R, rp, side, m');
    ghost var f', q' := CutLeaf(f, r), q - {r};
    CutTrees(m, treemap, C, f, q, s, r, rp, side, m');
    CutPlace(ViewsOf(m, Large(C)), C, f, q, s, r, rp, side, ViewsOf(m', Large(C)));
  }

  /** The nodes of size s and r. */
  lemma CutBasics(m: Mem, treemap: bv32, C: map<int, int>, f: Forest, q: Fifo, s: nat, x: int, r: nat, R: int, rp: int,
                  side: nat, m': Mem)
    requires TreesOk(m, treemap, C, f, q) && s in f.nodes && x == NodeAt(q, s)
    requires Replacement(f, q, s, r, R, rp, side) && IsLeaf(f, r) && rp in Large(C)
    requires m' == m[rp + 32 + 8 * side := 0]
    ensures x in Large(C) && q[s] != [] && LargeSize(r) && Bin(r) == Bin(s) && Agree(r, s, f.nodes[s].depth)
    ensures f.nodes[s].depth + 3 <= Width(r) && r != s && f.nodes[r].depth > 0 && side < 2
    ensures r in q && q[r] != [] && q[r][0] == R && s in q
    ensures rp == NodeAt(q, f.nodes[r].parent) && side == Turn(r, f.nodes[r].depth - 1)
    ensures Ok(f) && Places(C, q) && Apart(C) && LinksOk(ViewsOf(m, Large(C)), f, q)
    ensures CutLeaf(f, r).roots == f.roots && |f.roots| == TreeIndex.NTREEBINS
    ensures var g := CutLeaf(f, r); s in g.nodes && g.nodes[s].depth == f.nodes[s].depth && r !in g.nodes
    ensures Touched(m, m', C, Members(q), TREEBINS, TREEBINS + 256)
    ensures forall i: Index :: Rd(m', RootWord(i)) == Rd(m, RootWord(i))
  {
    hide Bin, LinksOk, NodeFields, ViewsOf, HeadsOk, RootsOk, CutLeaf, Agree, Turn, NodeOk, Ok, LargeSize;
    TreeNode(m, treemap, C, f, q, s);
    TreeNode(m, treemap, C, f, q, r);
    NodeSize(f, s);
    NodeSize(f, r);
    AgreeBin(r, s, f.nodes[s].depth);
    assert rp in Members(q) by { CutSlot(m, treemap, C, f, q, r); }
    CutShape(f, r, s);
  }

  /** The trees without the leaf r. */
  lemma CutTrees(m: Mem, treemap: bv32, C: map<int, int>, f: Forest, q: Fifo, s: nat, r: nat, rp: int,
                 side: nat, m': Mem)
    requires TreesOk(m, treemap, C, f, q) && s in f.nodes && IsLeaf(f, r) && r in q && LargeSize(r)
      && f.nodes[r].depth > 0
    requires rp in Large(C) && rp == NodeAt(q, f.nodes[r].parent) && side == Turn(r, f.nodes[r].depth - 1) && side < 2
    requires ViewsOf(m', Large(C)) == ViewsOf(m, Large(C))[rp := ViewsOf(m, Large(C))[rp].SetKid(side, 0)]
    requires Touched(m, m', C, Members(q), TREEBINS, TREEBINS + 256) && |f.roots| == TreeIndex.NTREEBINS
    requires forall i: Index :: Rd(m', RootWord(i)) == Rd(m, RootWord(i))
    ensures Ok(CutLeaf(f, r)) && Places(C, q - {r}) && LinksOk(ViewsOf(m', Large(C)), CutLeaf(f, r), q - {r})
    ensures RootsOk(m', treemap, CutLeaf(f, r), q - {r}) && HeadsOk(m', q - {r})
    ensures forall p | p in q[r] :: p in Large(C) && C[p] == r && ChunkSize(Rd(m', p + 8)) == r
  {
    hide Bin, LinksOk, NodeFields, ViewsOf, RootsOk, CutLeaf, Turn, Touched, NodeOk, Ok, Apart;
    LinksKeys(ViewsOf(m, Large(C)), f, q);
    CutLeafLinks(ViewsOf(m, Large(C)), C, f, q, r, ViewsOf(m', Large(C)));
    CutRoots(m, treemap, f, q, r, m');
    TouchedHeadsOk(m, m', C, Members(q), q);
    CutLeafOk(f, r);
  }

  lemma CutSlot(m: Mem, treemap: bv32, C: map<int, int>, f: Forest, q: Fifo, r: nat)
    requires TreesOk(m, treemap, C, f, q) && r in f.nodes && f.nodes[r].depth > 0
    ensures NodeAt(q, f.nodes[r].parent) in Members(q)
  {
    hide TreesOk;
    TreeNode(m, treemap, C, f, q, r);
    TreeNode(m, treemap, C, f, q, f.nodes[r].parent);
  }

  lemma CutShape(f: Forest, r: nat, s: nat)
    requires Ok(f) && IsLeaf(f, r) && f.nodes[r].depth > 0 && s in f.nodes && s != r
    ensures |f.roots| == TreeIndex.NTREEBINS && CutLeaf(f, r).roots == f.roots
    ensures var g := CutLeaf(f, r);
      s in g.nodes && g.nodes[s].depth == f.nodes[s].depth && r !in g.nodes
  {
    hide Bin, Turn;
    assert NodeOk(f, r);
  }

  lemma CutRoots(m: Mem, treemap: bv32, f: Forest, q: Fifo, r: nat, m': Mem)
    requires Ok(f) && RootsOk(m, treemap, f, q) && IsLeaf(f, r) && f.nodes[r].depth > 0
    requires forall i: Index :: Rd(m', RootWord(i)) == Rd(m, RootWord(i))
    ensures RootsOk(m', treemap, CutLeaf(f, r), q - {r})
  {
    hide Marked, Bin, Turn;
    KidsOf(f, r);
    CutShape(f, r, f.nodes[r].parent);
    forall i: Index
      ensures Rd(m', RootWord(i)) == NodeAt(q - {r}, f.roots[i]) && (Marked(treemap, i) <==> f.roots[i] != 0)
    {
      assert f.roots[i] != 0 ==> f.nodes[f.roots[i]].depth == 0;
    }
  }

  lemma CutPlace(V: Views, C: map<int, int>, f: Forest, q: Fifo, s: nat, r: nat, rp: int, side: nat, V': Views)
    requires Ok(f) && LinksOk(V, f, q) && Places(C, q) && s in f.nodes && r in f.nodes && r != s && IsLeaf(f, r)
    requires f.nodes[r].depth > 0 && rp == NodeAt(q, f.nodes[r].parent) && side == Turn(r, f.nodes[r].depth - 1)
    requires rp in V && V' == V[rp := V[rp].SetKid(side, 0)] && LinksOk(V', CutLeaf(f, r), q - {r})
      && |f.roots| == TreeIndex.NTREEBINS
    requires s in CutLeaf(f, r).nodes && r !in CutLeaf(f, r).nodes
    ensures Vacant(V', CutLeaf(f, r), q - {r}, s, NodeAt(q, s), r, q[r])
    ensures (q - {r})[s] == q[s] && NodeAt(q, s) in V' && V'[NodeAt(q, s)].index == Bin(s)
    ensures V'[NodeAt(q, s)].parent == V[NodeAt(q, s)].parent
  {
    hide Bin, CutLeaf, Turn, ParentAt, Key;
    var f', q' := CutLeaf(f, r), q - {r};
    LinksKeys(V, f, q);
    LinksAt(V', f', q', s);
    LinksAt(V, f, q, s);
    LinksAt(V, f, q, r);
    NoZeroSize(f);
    KidsOf(f, r);
    LinksAt(V, f, q, f.nodes[r].parent);
    RingFrame(V, V', q[r], rp);
    assert rp !in q[r] by { OtherNode(C, q, f.nodes[r].parent, r); }
    forall t | t in f'.nodes && t != s ensures NodeFields(V', f', q', t) { LinksAt(V', f', q', t); }
    forall t | t in f'.nodes && t != s ensures forall p | p in q[r] :: p !in q'[t] {
      forall p | p in q[r] ensures p !in q'[t] { assert C[p] == r; }
    }
  }

  lemma RenewedReachable(q: Fifo, s: nat, r: nat, L: seq<int>, leastAddr: int)
    requires Reachable(q, leastAddr) && forall p | p in L :: p >= leastAddr
    ensures Reachable(Renewed(q, s, r, L), leastAddr)
  {
    forall k | 0 <= k < |L| ensures leastAddr <= L[k] {
      assert L[k] in L;
    }
  }

  /** Whether x is the root of its bin can be read off the root word. */
  lemma RootOrNot(m: Mem, treemap: bv32, C: map<int, int>, f: Forest, q: Fifo, s: nat, leastAddr: int)
    requires TreesOk(m, treemap, C, f, q) && s in f.nodes && Reachable(q, leastAddr)
    ensures f.nodes[s].depth == 0 <==> Rd(m, RootWord(Bin(s))) == NodeAt(q, s)
    ensures f.nodes[s].depth > 0 ==>
      var XP := NodeAt(q, f.nodes[s].parent);
      && Rd(m, NodeAt(q, s) + 48) == XP && XP in Large(C) && XP >= leastAddr && XP in Members(q)
      && (Rd(m, XP + 32) == NodeAt(q, s) <==> Turn(s, f.nodes[s].depth - 1) == 0)
  {
    hide Bin, Turn, TreesOk, Reachable;
    TreesForest(m, treemap, C, f, q);
    TreeNode(m, treemap, C, f, q, s);
    assert NodeOk(f, s);
    UnderRoot(f, s);
    var u := f.roots[Bin(s)];
    assert Rd(m, RootWord(Bin(s))) == NodeAt(q, u) by { RootRead(m, treemap, C, f, q, Bin(s)); }
    TreeNode(m, treemap, C, f, q, u);
    if f.nodes[s].depth > 0 {
      KidsOf(f, s);
      var p := f.nodes[s].parent;
      KidsOf(f, p);
      TreeNode(m, treemap, C, f, q, p);
      ReachNode(q, p, leastAddr);
      if f.nodes[p].left != 0 { TreeNode(m, treemap, C, f, q, f.nodes[p].left); }
      TreesKeys(m, treemap, C, f, q);
    }
  }

  lemma RootRead(m: Mem, treemap: bv32, C: map<int, int>, f: Forest, q: Fifo, i: Index)
    requires TreesOk(m, treemap, C, f, q)
    ensures |f.roots| == TreeIndex.NTREEBINS && Rd(m, RootWord(i)) == NodeAt(q, f.roots[i])
    ensures Marked(treemap, i) <==> f.roots[i] != 0
  {
  }

  lemma RootDropped(m: Mem, treemap: bv32, C: map<int, int>, f: Forest, q: Fifo, s: nat, m': Mem)
    requires TreesOk(m, treemap, C, f, q) && IsLeaf(f, s) && f.nodes[s].depth == 0 && m' == m[RootWord(Bin(s)) := 0]
    ensures |f.roots| == TreeIndex.NTREEBINS && TreesOk(m', Clear(treemap, Bin(s)), C, CutLeaf(f, s), q - {s})
    ensures Touched(m, m', C, Members(q), TREEBINS, TREEBINS + 256)
  {
    hide Bin, LinksOk, ViewsOf, RootsOk, Ok, CutLeaf;
    LinksKeys(ViewsOf(m, Large(C)), f, q);
    CutLeafOk(f, s);
    LargeSpaced(C);
    RootWordLow(Bin(s));
    StaticWrite(m, RootWord(Bin(s)), 0, Large(C));
    CutLeafLinks(ViewsOf(m, Large(C)), C, f, q, s, ViewsOf(m', Large(C)));
    TouchedHeadsOk(m, m', C, Members(q), q);
    NodeSize(f, s);
    RootsAfterDrop(m, treemap, f, q, s, m');
  }

  lemma RootsAfterDrop(m: Mem, treemap: bv32, f: Forest, q: Fifo, s: nat, m': Mem)
    requires Ok(f) && RootsOk(m, treemap, f, q) && IsLeaf(f, s) && f.nodes[s].depth == 0
    requires q.Keys == f.nodes.Keys && m' == m[RootWord(Bin(s)) := 0]
    ensures |f.roots| == TreeIndex.NTREEBINS && RootsOk(m', Clear(treemap, Bin(s)), CutLeaf(f, s), q - {s})
  {
    hide Marked, Bin, Clear, Turn, Key;
    NoZeroSize(f);
    assert NodeOk(f, s);
    forall i: Index
      ensures var g := CutLeaf(f, s);
        Rd(m', RootWord(i)) == NodeAt(q - {s}, g.roots[i]) && (Marked(Clear(treemap, Bin(s)), i) <==> g.roots[i] != 0)
    {
      ClearResets(treemap, Bin(s), i);
      assert Rd(m, RootWord(i)) == NodeAt(q, f.roots[i]);
    }
  }

  lemma LeafDropped(m: Mem, treemap: bv32, C: map<int, int>, f: Forest, q: Fifo, s: nat, XP: int, b: nat, m': Mem)
    requires TreesOk(m, treemap, C, f, q) && IsLeaf(f, s) && f.nodes[s].depth > 0
    requires XP == NodeAt(q, f.nodes[s].parent) && XP in Large(C) && XP in Members(q)
      && b == Turn(s, f.nodes[s].depth - 1)
    requires m' == m[XP + 32 + 8 * b := 0]
    requires ViewsOf(m', Large(C)) == ViewsOf(m, Large(C))[XP := ViewsOf(m, Large(C))[XP].SetKid(b, 0)]
    ensures |f.roots| == TreeIndex.NTREEBINS && TreesOk(m', treemap, C, CutLeaf(f, s), q - {s})
    ensures Touched(m, m', C, Members(q), TREEBINS, TREEBINS + 256)
  {
    hide Bin, LinksOk, ViewsOf, RootsOk, Ok, CutLeaf, Turn;
    LinksKeys(ViewsOf(m, Large(C)), f, q);
    CutLeafOk(f, s);
    CutLeafLinks(ViewsOf(m, Large(C)), C, f, q, s, ViewsOf(m', Large(C)));
    TouchedHeadsOk(m, m', C, Members(q), q);
    NodeSize(f, s);
    KidsOf(f, s);
    CutShape(f, s, f.nodes[s].parent);
    CutRoots(m, treemap, f, q, s, m');
  }

  lemma FewerReachable(q: Fifo, s: nat, leastAddr: int)
    requires Reachable(q, leastAddr)
    ensures Reachable(q - {s}, leastAddr)
  {
  }

  /** The parent field tells tree nodes from the chunks chained behind them. */
  lemma ChainOrTree(m: Mem, treemap: bv32, C: map<int, int>, f: Forest, q: Fifo, s: nat, x: int)
    requires TreesOk(m, treemap, C, f, q) && s in q && x in q[s]
    ensures Rd(m, x + 48) == 0 <==> IndexOf(q[s], x) > 0
  {
    hide Bin, Ok, Places, HeadsOk, RootsOk;
    var j := IndexOf(q[s], x);
    LinksAt(ViewsOf(m, Large(C)), f, q, s);
    if j == 0 {
      TreeNode(m, treemap, C, f, q, s);
      if f.nodes[s].depth > 0 { TreeNode(m, treemap, C, f, q, f.nodes[s].parent); } else { RootWordLow(Bin(s)); }
    } else {
      NodeInViews(ViewsOf(m, Large(C)), f, q, s);
      assert ViewsOf(m, Large(C))[q[s][j]].parent == 0;
    }
  }

  lemma ChainUnlinked(m: Mem, treemap: bv32, C: map<int, int>, f: Forest, q: Fifo, s: nat, j: nat,
                      m': Mem, leastAddr: int)
    requires TreesOk(m, treemap, C, f, q) && s in q && 0 < j < |q[s]| && Reachable(q, leastAddr)
    requires Unlinked(ViewsOf(m, Large(C)), q[s], j, ViewsOf(m', Large(C))) && Untouched(m, m', C, q)
    ensures TreesOk(m', treemap, C, f, Removed(q, s, j)) && Reachable(Removed(q, s, j), leastAddr)
  {
    hide Bin, Ok, Unlinked, Untouched, ViewsOf, LinksOk;
    LinksAt(ViewsOf(m, Large(C)), f, q, s);
    UnchainOk(ViewsOf(m, Large(C)), C, f, q, s, j, ViewsOf(m', Large(C)));
    UntouchedParts(m, m', treemap, C, f, q);
    RemovedPlaces(C, q, s, j);
    WithoutDistinct(q[s], j);
    RemovedParts(m', treemap, C, f, q, s, j, leastAddr);
  }

  lemma RemovedParts(m: Mem, treemap: bv32, C: map<int, int>, f: Forest, q: Fifo, s: nat, j: nat, leastAddr: int)
    requires HeadsOk(m, q) && RootsOk(m, treemap, f, q) && s in q && 0 < j < |q[s]| && Reachable(q, leastAddr)
    ensures HeadsOk(m, Removed(q, s, j)) && RootsOk(m, treemap, f, Removed(q, s, j))
      && Reachable(Removed(q, s, j), leastAddr)
  {
    hide Marked;
    var M := Without(q[s], j);
    assert M[0] == q[s][0];
    assert forall u :: NodeAt(Removed(q, s, j), u) == NodeAt(q, u);
    forall k | 0 <= k < |M| ensures ChunkSize(Rd(m, M[k] + 8)) == s && leastAddr <= M[k] {
      assert M[k] == q[s][if k < j then k else k + 1];
    }
  }

  lemma SingleNode(m: Mem, treemap: bv32, C: map<int, int>, f: Forest, q: Fifo, s: nat, x: int)
    requires TreesOk(m, treemap, C, f, q) && s in q && x in q[s] && |q[s]| == 1
    ensures s in f.nodes && x == NodeAt(q, s) && IndexOf(q[s], x) == 0 && Removed(q, s, 0) == q - {s}
  {
    LinksKeys(ViewsOf(m, Large(C)), f, q);
  }

  /** The shape after the cut-off leaf r has taken the place of s. */
  lemma SubstituteFacts(m: Mem, treemap: bv32, C: map<int, int>, f: Forest, q: Fifo, s: nat, X: int,
                        r: nat, L: seq<int>)
    requires VacantTrees(m, treemap, C, f, q, s, X, r, L) && r !in f.nodes
    ensures s in f.nodes && |f.roots| == TreeIndex.NTREEBINS
    ensures var g := Substitute(f, s, r);
      Ok(g) && Renamed(f, s, r, g) && g.roots == (if f.nodes[s].depth == 0 then f.roots[Bin(s) := r] else f.roots)
  {
    hide Bin, Key, Substitute, Vacant, Renamed, Places, HeadsOk, RootsOk, LinksOk, ViewsOf;
    VacantBasics(m, treemap, C, f, q, s, X, r, L);
    SubstituteOk(f, s, r);
    SubstituteShape(f, s, r);
    SubstitutedIsRenamed(f, s, r, Substitute(f, s, r));
  }

  lemma MembersOfCut(q: Fifo, r: nat)
    requires r in q
    ensures Members(q - {r}) + Elems(q[r]) <= Members(q)
  {
    forall p | p in q[r] ensures p in Members(q) {
      var k :| 0 <= k < |q[r]| && q[r][k] == p;
    }
  }

  lemma TouchedTwice(m: Mem, m1: Mem, m2: Mem, C: map<int, int>, free: set<int>, free': set<int>)
    requires Touched(m, m1, C, free, TREEBINS, TREEBINS + 256) && Touched(m1, m2, C, free', TREEBINS, TREEBINS + 256)
    requires free' <= free
    ensures Touched(m, m2, C, free, TREEBINS, TREEBINS + 256)
  {
  }

  lemma MembersOfRest(q: Fifo, s: nat)
    requires s in q && q[s] != []
    ensures Members(q) + Elems(Without(q[s], 0)) == Members(q)
  {
    forall p | p in Without(q[s], 0) ensures p in Members(q) {
      var k :| 0 <= k < |q[s]| && q[s][k] == p;
    }
  }

  lemma NodeRoots(f: Forest, s: nat)
    requires Ok(f) && s in f.nodes
    ensures |f.roots| == TreeIndex.NTREEBINS
    ensures f.nodes[s].depth == 0 ==> f.roots == f.roots[Bin(s) := s]
  {
    assert NodeOk(f, s);
  }

  lemma QueueReachable(q: Fifo, s: nat, leastAddr: int)
    requires Reachable(q, leastAddr) && s in q
    ensures forall p | p in q[s] :: p >= leastAddr
  {
  }

  lemma RestReachable(q: Fifo, s: nat, leastAddr: int)
    requires Reachable(q, leastAddr) && s in q && |q[s]| > 1
    ensures forall p | p in Without(q[s], 0) :: p >= leastAddr
  {
    forall p | p in Without(q[s], 0) ensures p >= leastAddr {
      assert p in q[s];
    }
  }

  lemma SlotInLarge(m: Mem, treemap: bv32, C: map<int, int>, f: Forest, q: Fifo, s: nat, r: nat, R: int,
                    rp: int, side: nat)
    requires TreesOk(m, treemap, C, f, q) && Replacement(f, q, s, r, R, rp, side)
    ensures rp in Large(C) && side < 2
  {
    hide TreesOk, Bin;
    TreeNode(m, treemap, C, f, q, r);
    TreeNode(m, treemap, C, f, q, f.nodes[r].parent);
  }

  // ---------------------------------------------------------------------------------------
  // Best fit

  /** The fit found so far: none, with the initial remainder -nb modulo the word size, or the tree
      node v of a size vs that exceeds nb by rsize. */
  ghost predicate Fit(f: Forest, q: Fifo, nb: nat, rsize: nat, v: int, vs: nat) {
    if v == 0 then rsize == WORD - nb
    else vs in f.nodes && v == NodeAt(q, vs) && vs == nb + rsize
  }

  /** The node t on the path of nb that the descent looks at. */
  ghost predicate Descending(f: Forest, q: Fifo, nb: nat, rsize: nat, t: int, ts: nat, rst: int, rs: nat, bits: nat) {
    && 0 < rsize <= WORD - nb && t != 0 && t == NodeAt(q, ts) && rst == NodeAt(q, rs) && (rs != 0 <==> rst != 0)
    && Descent(f, nb, rsize, ts, rs)
    && f.nodes[ts].depth + 3 <= Width(nb)
    && bits == SignWord(nb, Width(nb) - 1 - f.nodes[ts].depth)
  }

  lemma DescendingStarts(m: Mem, treemap: bv32, C: map<int, int>, f: Forest, q: Fifo, nb: nat, t: int,
                         bits: nat) returns (ts: nat)
    requires TreesOk(m, treemap, C, f, q) && LargeSize(nb) && t == Rd(m, RootWord(Bin(nb)))
    requires bits == Shl(nb, TreeIndex.LeftShift(Bin(nb)))
    ensures |f.roots| == TreeIndex.NTREEBINS && ts == f.roots[Bin(nb)]
    ensures t == 0 ==> Landed(f, nb, WORD - nb, 0)
    ensures t != 0 ==> Descending(f, q, nb, WORD - nb, t, ts, 0, 0, bits)
  {
    hide Bin, Landed, Descent, TreesOk, LargeSize, Shl;
    TreesForest(m, treemap, C, f, q);
    RootRead(m, treemap, C, f, q, Bin(nb));
    TreesKeys(m, treemap, C, f, q);
    NoZeroSize(f);
    ts := f.roots[Bin(nb)];
    LargeIsWord(nb);
    if ts == 0 {
      EmptyBinLanded(f, nb, WORD - nb);
    } else {
      TreeNode(m, treemap, C, f, q, ts);
      DescentStarts(f, nb, WORD - nb);
      NodeSize(f, ts);
      assert Bin(ts) == Bin(nb) && f.nodes[ts].depth == 0;
    }
  }

  lemma LargeIsWord(s: nat)
    requires LargeSize(s)
    ensures 256 <= s < WORD
  {
  }

  lemma DescendingNode(m: Mem, treemap: bv32, C: map<int, int>, f: Forest, q: Fifo, nb: nat, rsize: nat, t: int,
                       ts: nat, rst: int, rs: nat, bits: nat)
    requires TreesOk(m, treemap, C, f, q) && Descending(f, q, nb, rsize, t, ts, rst, rs, bits)
    ensures ts in f.nodes && ChunkSize(Rd(m, t + 8)) == ts && 256 <= ts < WORD && 0 < rsize <= WORD - nb
    ensures f.nodes[ts].depth + 3 <= Width(nb) && t == NodeAt(q, ts) && t != 0 && Bin(ts) == Bin(nb)
  {
    hide TreesOk, Bin, Key;
    TreeNode(m, treemap, C, f, q, ts);
    LargeIsWord(ts);
  }

  /** One step of the descent, on pointers. */
  lemma DescendingStep(m: Mem, treemap: bv32, C: map<int, int>, f: Forest, q: Fifo, nb: nat, rsize0: nat, rsize: nat,
                       t: int, ts: nat, rst: int, rs: nat, bits: nat)
    requires TreesOk(m, treemap, C, f, q) && LargeSize(nb) && Descending(f, q, nb, rsize0, t, ts, rst, rs, bits)
    requires 0 < rsize <= rsize0 && (ts < nb || ts >= nb + rsize) && ts in f.nodes
    ensures var b := bits / 0x8000_0000_0000_0000;
      var rt, t' := Rd(m, t + 40), Rd(m, t + 32 + 8 * b);
      var rts, ts' := f.nodes[ts].right, f.nodes[ts].Kid(b);
      var rst', rs' := (if rt != 0 && rt != t' then rt else rst), (if rt != 0 && rt != t' then rts else rs);
      && b < 2 && rst' == NodeAt(q, rs') && (rs' != 0 <==> rst' != 0) && t' == NodeAt(q, ts') && (ts' != 0 <==> t' != 0)
      && if t' != 0
         then Descending(f, q, nb, rsize, t', ts', rst', rs', Wrap(bits * 2))
              && ts' in f.nodes && f.nodes[ts'].depth == f.nodes[ts].depth + 1
         else Landed(f, nb, rsize, rs')
  {
    hide TreesOk, Bin, Landed, Descent, Agree, LargeSize, SignWord;
    TreesForest(m, treemap, C, f, q);
    TreesKeys(m, treemap, C, f, q);
    NoZeroSize(f);
    TreeNode(m, treemap, C, f, q, ts);
    var d := f.nodes[ts].depth;
    DescentPath(f, nb, rsize0, ts, rs);
    RoomBelow(nb, ts, d);
    TurnAtSign(nb, d, bits);
    DescentShrinks(f, nb, rsize0, rsize, ts, rs);
    DescentStep(f, nb, rsize, ts, rs);
    var rts, ts' := f.nodes[ts].right, f.nodes[ts].Kid(Turn(nb, d));
    if rts != 0 { TreeNode(m, treemap, C, f, q, rts); }
    if ts' != 0 { TreeNode(m, treemap, C, f, q, ts'); LargeIsWord(ts'); NodeSize(f, ts');
      DescentBin(m, treemap, C, f, q, nb, ts, ts', d); }
  }

  lemma DescentBin(m: Mem, treemap: bv32, C: map<int, int>, f: Forest, q: Fifo, nb: nat, ts: nat, ts': nat, d: nat)
    requires Ok(f) && ts in f.nodes && ts' in f.nodes && f.nodes[ts].depth == d && Agree(nb, ts, d)
    requires ts' != 0 && (ts' == f.nodes[ts].left || ts' == f.nodes[ts].right)
    ensures Width(ts') == Width(nb)
  {
    hide Key;
    KidIsUnder(f, ts, if ts' == f.nodes[ts].left then 0 else 1);
  }

  lemma DescentPath(f: Forest, nb: nat, rsize: nat, ts: nat, rs: nat)
    requires Ok(f) && Descent(f, nb, rsize, ts, rs)
    ensures ts in f.nodes && Agree(nb, ts, f.nodes[ts].depth) && LargeSize(ts)
    ensures f.nodes[ts].depth <= Width(nb)
  {
    hide Key;
    NodeSize(f, ts);
  }

  lemma DescentShrinks(f: Forest, nb: nat, rsize0: nat, rsize: nat, ts: nat, rs: nat)
    requires Ok(f) && Descent(f, nb, rsize0, ts, rs) && rsize <= rsize0
    ensures Descent(f, nb, rsize, ts, rs)
  {
    hide Bin, Key, Under, Agree;
    forall s | s in f.nodes && Bin(s) == Bin(nb)
      ensures s < nb || s >= nb + rsize || Under(f, s, ts) || (rs != 0 && rs in f.nodes && (Under(f, s, rs) || rs < s))
    {
      assert NodeOk(f, s);
    }
  }

  /** The state between the descent and the leftmost walk: t, of size ts, roots what is left to see. */
  ghost predicate Found(f: Forest, q: Fifo, nb: nat, rsize: nat, v: int, vs: nat, t: int, ts: nat) {
    && Fit(f, q, nb, rsize, v, vs) && rsize <= WORD - nb
    && t == NodeAt(q, ts) && (ts != 0 <==> t != 0) && (ts != 0 ==> ts in f.nodes)
    && Walk(f, nb, rsize, ts)
  }

  lemma NextRoot(m: Mem, treemap: bv32, C: map<int, int>, f: Forest, q: Fifo, nb: nat, i: Index)
    requires TreesOk(m, treemap, C, f, q) && LargeSize(nb) && Landed(f, nb, WORD - nb, 0)
    requires Bin(nb) < i && Marked(treemap, i) && forall j: Index | Bin(nb) < j < i :: !Marked(treemap, j)
    ensures |f.roots| == TreeIndex.NTREEBINS
    ensures Found(f, q, nb, WORD - nb, 0, 0, Rd(m, RootWord(i)), f.roots[i])
  {
    hide TreesOk, Bin, Landed, Walk, Marked, RootWord;
    TreesForest(m, treemap, C, f, q);
    RootRead(m, treemap, C, f, q, i);
    LargeIsWord(nb);
    forall j: Index | Bin(nb) < j < i ensures f.roots[j] == 0 {
      RootRead(m, treemap, C, f, q, j);
    }
    NextBinWalk(f, nb, i);
    TreeNode(m, treemap, C, f, q, f.roots[i]);
  }

  lemma NoRoot(m: Mem, treemap: bv32, C: map<int, int>, f: Forest, q: Fifo, nb: nat)
    requires TreesOk(m, treemap, C, f, q) && LargeSize(nb) && Landed(f, nb, WORD - nb, 0)
    requires forall j: Index | Bin(nb) < j :: !Marked(treemap, j)
    ensures Found(f, q, nb, WORD - nb, 0, 0, 0, 0)
  {
    hide TreesOk, Bin, Landed, Walk, Marked, RootWord;
    TreesForest(m, treemap, C, f, q);
    TreesKeys(m, treemap, C, f, q);
    NoZeroSize(f);
    LargeIsWord(nb);
    RootRead(m, treemap, C, f, q, 0);
    forall j: nat | Bin(nb) < j < TreeIndex.NTREEBINS ensures f.roots[j] == 0 {
      RootRead(m, treemap, C, f, q, j);
    }
    NoBinWalk(f, nb);
  }

  lemma FirstRoot(m: Mem, treemap: bv32, C: map<int, int>, f: Forest, q: Fifo, nb: nat, i: Index)
    requires TreesOk(m, treemap, C, f, q) && 0 < nb < TreeIndex.MIN_LARGE_SIZE
    requires Marked(treemap, i) && forall j: Index | j < i :: !Marked(treemap, j)
    ensures |f.roots| == TreeIndex.NTREEBINS && f.roots[i] >= nb
    ensures var t := Rd(m, RootWord(i)); var ts := f.roots[i];
      t != 0 && ChunkSize(Rd(m, t + 8)) == ts && ts < WORD && Found(f, q, nb, ts - nb, t, ts, t, ts)
  {
    hide TreesOk, Bin, Walk, Marked, RootWord;
    TreesForest(m, treemap, C, f, q);
    RootRead(m, treemap, C, f, q, i);
    forall j: nat | j < i ensures f.roots[j] == 0 {
      RootRead(m, treemap, C, f, q, j);
    }
    FirstBinWalk(f, nb, i);
    TreeNode(m, treemap, C, f, q, f.roots[i]);
    LargeIsWord(f.roots[i]);
  }

  lemma FoundNode(m: Mem, treemap: bv32, C: map<int, int>, f: Forest, q: Fifo, nb: nat, rsize: nat, v: int, vs: nat,
                  t: int, ts: nat)
    requires TreesOk(m, treemap, C, f, q) && Found(f, q, nb, rsize, v, vs, t, ts) && t != 0
    ensures ts in f.nodes && ChunkSize(Rd(m, t + 8)) == ts && 256 <= ts < WORD && f.nodes[ts].depth <= 64
    ensures t == NodeAt(q, ts) && rsize <= WORD - nb
  {
    hide TreesOk, Bin, Walk;
    TreeNode(m, treemap, C, f, q, ts);
    LargeIsWord(ts);
    TreesForest(m, treemap, C, f, q);
    NodeSize(f, ts);
  }

  /** One step of the leftmost walk, on pointers. */
  lemma FoundStep(m: Mem, treemap: bv32, C: map<int, int>, f: Forest, q: Fifo, nb: nat, rsize0: nat, v0: int, vs0: nat,
                  rsize: nat, v: int, vs: nat, t: int, ts: nat)
    requires TreesOk(m, treemap, C, f, q) && Found(f, q, nb, rsize0, v0, vs0, t, ts) && t != 0
    requires rsize <= rsize0 && Fit(f, q, nb, rsize, v, vs) && ts in f.nodes && (ts < nb || ts >= nb + rsize)
    ensures var c := Rd(m, t + 32);
      var t' := if c != 0 then c else Rd(m, t + 40);
      Found(f, q, nb, rsize, v, vs, t', LeftmostKid(f, ts))
      && (t' != 0 ==> f.nodes[LeftmostKid(f, ts)].depth == f.nodes[ts].depth + 1)
  {
    hide TreesOk, Bin, Walk, Fit;
    TreesForest(m, treemap, C, f, q);
    TreesKeys(m, treemap, C, f, q);
    NoZeroSize(f);
    TreeNode(m, treemap, C, f, q, ts);
    var n := f.nodes[ts];
    if n.left != 0 { TreeNode(m, treemap, C, f, q, n.left); }
    if n.right != 0 { TreeNode(m, treemap, C, f, q, n.right); }
    WalkShrinks(f, nb, rsize0, rsize, ts);
    WalkStep(f, nb, rsize, ts);
  }

  lemma WalkShrinks(f: Forest, nb: nat, rsize0: nat, rsize: nat, t: nat)
    requires Ok(f) && Walk(f, nb, rsize0, t) && rsize <= rsize0
    ensures Walk(f, nb, rsize, t)
  {
    hide Bin, Key, Under;
    forall s | s in f.nodes
      ensures s < nb || s >= nb + rsize || (t != 0 && t in f.nodes && (Under(f, s, t) || t < s))
    {
      assert NodeOk(f, s);
    }
  }

  /** When nothing is left to see, the fit is the best one. */
  lemma FoundAll(m: Mem, treemap: bv32, C: map<int, int>, f: Forest, q: Fifo, nb: nat, rsize: nat, v: int, vs: nat)
    requires TreesOk(m, treemap, C, f, q) && Found(f, q, nb, rsize, v, vs, 0, 0)
    ensures v == 0 ==> rsize == WORD - nb && forall s | s in q :: s < nb
    ensures v != 0 ==>
      vs in q && q[vs] != [] && v == q[vs][0] && vs == nb + rsize && forall s | s in q :: s < nb || s >= vs
  {
    hide TreesOk, Bin, Under;
    TreesForest(m, treemap, C, f, q);
    TreesKeys(m, treemap, C, f, q);
    if v != 0 { TreeNode(m, treemap, C, f, q, vs); }
    forall s | s in q ensures s < nb || s >= nb + rsize {
      assert NodeOk(f, s);
      NodeSize(f, s);
      LargeIsWord(s);
    }
    forall s | s in q ensures s < WORD {
      NodeSize(f, s);
      LargeIsWord(s);
    }
  }

  /** A descent that has ended leaves either a subtree to walk, or nothing in this bin. */
  lemma DescentEnds(m: Mem, treemap: bv32, C: map<int, int>, f: Forest, q: Fifo, nb: nat, rsize: nat, v: int, vs: nat,
                    t: int, ts: nat)
    requires TreesOk(m, treemap, C, f, q) && LargeSize(nb) && Landed(f, nb, rsize, ts) && Fit(f, q, nb, rsize, v, vs)
    requires rsize <= WORD - nb && t == NodeAt(q, ts) && (ts != 0 <==> t != 0) && (v != 0 ==> Bin(vs) == Bin(nb))
    requires t != 0 || v != 0
    ensures Found(f, q, nb, rsize, v, vs, t, ts)
  {
    hide TreesOk, Bin, Walk, LargeSize;
    TreesForest(m, treemap, C, f, q);
    LargeIsWord(nb);
    NoZeroSize(f);
    LandedWalk(f, nb, rsize, ts, if v != 0 then vs else 0);
  }

  /** An exact fit ends the search: everything else is at least as large or too small. */
  lemma ExactFit(f: Forest, q: Fifo, nb: nat, v: int, vs: nat)
    requires Fit(f, q, nb, 0, v, vs) && v != 0 && vs != 0
    ensures nb < WORD ==> Found(f, q, nb, 0, v, vs, v, vs)
  {
    hide Bin, Under;
  }

  lemma NothingMarked(x: bv32)
    requires x == 0
    ensures forall j: Index :: !Marked(x, j)
  {
    ZeroMap(x);
  }

  lemma FoundNext(m: Mem, treemap: bv32, C: map<int, int>, f: Forest, q: Fifo, nb: nat, rsize: nat, v: int, vs: nat,
                  t: int, ts: nat)
    requires TreesOk(m, treemap, C, f, q) && Found(f, q, nb, rsize, v, vs, t, ts)
    ensures t != 0 ==> ts in f.nodes && f.nodes[ts].depth <= 64
  {
    hide TreesOk;
    if t != 0 { FoundNode(m, treemap, C, f, q, nb, rsize, v, vs, t, ts); }
  }

  lemma AllLarge(m: Mem, treemap: bv32, C: map<int, int>, f: Forest, q: Fifo)
    requires TreesOk(m, treemap, C, f, q)
    ensures forall s | s in q :: LargeSize(s)
  {
    hide Bin;
    LinksKeys(ViewsOf(m, Large(C)), f, q);
    forall s | s in q ensures LargeSize(s) { NodeSize(f, s); }
  }
}
