/** The treebins of malloc_state (malloc.c, "Operations on trees" and the searches of
    tmalloc_large and tmalloc_small). */
module TreeBins {
  import opened Words
  import opened BinMap
  import TreeIndex
  import opened Trie
  import opened BestFit
  import opened ChunkMemory
  import opened Lists
  import opened TreeLinks
  import opened TreeState

  /** The fields of a new leaf, set one after the other. */
  lemma LeafViews(V: Views, T: int, b: nat, x: int, i: int, V': Views)
    requires T in V && x in V && x != T && b < 2 && V[x].index == i && V[x].left == 0 && V[x].right == 0
    requires var V1 := V[T := V[T].SetKid(b, x)];
      var V2 := V1[x := V1[x].(parent := T)];
      var V3 := V2[x := V2[x].(bk := x)];
      V' == V3[x := V3[x].(fd := x)]
    ensures V' == V[T := V[T].SetKid(b, x)][x := Links(x, x, 0, 0, T, i)]
  {
  }

  lemma ChainViews(V: Views, T: int, F: int, x: int, V': Views)
    requires T in V && F in V && x in V && x != T && x != F
    requires var V1 := V[F := V[F].(bk := x)];
      var V2 := V1[T := V1[T].(fd := x)];
      var V3 := V2[x := V2[x].(fd := F)];
      var V4 := V3[x := V3[x].(bk := T)];
      V' == V4[x := V4[x].(parent := 0)]
    ensures var W := V[F := V[F].(bk := x)]; V' == W[T := W[T].(fd := x)][x := V[x].(fd := F, bk := T, parent := 0)]
  {
  }

  class TreeBins {
    const arena: Arena
    var treemap: bv32
    ghost var forest: Forest
    ghost var fifo: Fifo

    ghost predicate Valid(C: map<int, int>)
      reads this, arena
    {
      TreesOk(arena.mem, treemap, C, forest, fifo) && Reachable(fifo, arena.leastAddr)
    }

    constructor (arena: Arena)
      ensures this.arena == arena && treemap == 0 && forest == Forest(map[], seq(32, _ => 0)) && fifo == map[]
    {
      this.arena := arena;
      treemap := 0;
      forest := Forest(map[], seq(32, _ => 0));
      fifo := map[];
    }

    /** x is a chunk of size s that is in no treebin. */
    ghost predicate Unbinned(C: map<int, int>, x: int, s: nat)
      reads this, arena
    {
      Loose(arena.mem, C, fifo, x, s) && x >= arena.leastAddr
    }

    /** The part of insert_large_chunk that sets up the fields every new node has. */
    method InitNode(x: int, s: nat, i: int, ghost C: map<int, int>)
      requires Valid(C) && Unbinned(C, x, s)
      modifies arena`mem
      ensures Valid(C) && Unbinned(C, x, s) && Blank(arena.mem, C, x, i)
      ensures Touched(old(arena.mem), arena.mem, C, {x}, TREEBINS, TREEBINS + 256)
    {
      hide TreesOk, Touched, ViewsOf, Spaced, Reachable;
      ghost var L, m0 := Large(C), arena.mem;
      LooseInLarge(m0, treemap, C, forest, fifo, x, s);
      arena.SetIndex(x, i, L);
      arena.SetChild(x, 1, 0, L);
      arena.SetChild(x, 0, 0, L);
      NodeInitialised(m0, treemap, C, forest, fifo, x, s, i, arena.mem);
    }

    /** The first chunk of an empty bin becomes its root. */
    method LinkRoot(x: int, s: nat, i: Index, ghost C: map<int, int>)
      requires Valid(C) && Unbinned(C, x, s) && Blank(arena.mem, C, x, i) && i == Bin(s) && !Marked(treemap, i)
      modifies this, arena`mem
      ensures Valid(C)
      ensures fifo == old(fifo)[s := Queue(old(fifo), s) + [x]]
      ensures Touched(old(arena.mem), arena.mem, C, {x}, TREEBINS, TREEBINS + 256)
    {
      hide TreesOk, Touched, ViewsOf, Spaced, Mark, Marked, Blank;
      ghost var L, m0 := Large(C), arena.mem;
      LooseInLarge(m0, treemap, C, forest, fifo, x, s);
      treemap := Mark(treemap, i);
      arena.Write(RootWord(i), x);
      StaticWrite(m0, RootWord(i), x, L);
      arena.SetParent(x, RootWord(i), L);
      arena.SetBk(x, x, L);
      arena.SetFd(x, x, L);
      BlankView(m0, C, x, i);
      RootAdded(m0, old(treemap), forest, fifo, C, x, s, i, arena.mem);
      forest := AddRoot(forest, s);
      fifo := fifo[s := [x]];
    }

    /** A new leaf below the node T of size u. */
    method LinkLeaf(x: int, s: nat, T: int, b: nat, ghost u: nat, ghost C: map<int, int>)
      requires Valid(C) && Unbinned(C, x, s) && Blank(arena.mem, C, x, Bin(s))
      requires u in forest.nodes && s !in forest.nodes && T == NodeAt(fifo, u) && Agree(s, u, forest.nodes[u].depth)
      requires b == Turn(s, forest.nodes[u].depth) && forest.nodes[u].Kid(b) == 0
      modifies this, arena`mem
      ensures Valid(C)
      ensures fifo == old(fifo)[s := Queue(old(fifo), s) + [x]]
      ensures Touched(old(arena.mem), arena.mem, C, Members(old(fifo)) + {x}, TREEBINS, TREEBINS + 256)
    {
      hide TreesOk, Touched, ViewsOf, Spaced, Blank, Agree, Turn, Bin;
      ghost var L, m0 := Large(C), arena.mem;
      LooseInLarge(m0, treemap, C, forest, fifo, x, s);
      TreeNode(m0, treemap, C, forest, fifo, u);
      BlankView(m0, C, x, Bin(s));
      ghost var V := ViewsOf(m0, L);
      arena.SetChild(T, b, x, L);
      arena.SetParent(x, T, L);
      arena.SetBk(x, x, L);
      arena.SetFd(x, x, L);
      LeafViews(V, T, b, x, Bin(s), ViewsOf(arena.mem, L)) by { assert x != T; }
      LeafAdded(m0, treemap, C, forest, fifo, x, s, u, T, b, arena.mem);
      forest := AddLeaf(forest, s, u);
      fifo := fifo[s := [x]];
    }

    /** A chunk of a size already present goes behind the youngest chunk of that size. */
    method LinkChain(x: int, s: nat, T: int, ghost C: map<int, int>)
      requires Valid(C) && Unbinned(C, x, s) && Blank(arena.mem, C, x, Bin(s))
      requires s in forest.nodes && T == NodeAt(fifo, s)
      modifies this, arena`mem
      ensures Valid(C)
      ensures fifo == old(fifo)[s := Queue(old(fifo), s) + [x]]
      ensures Touched(old(arena.mem), arena.mem, C, Members(old(fifo)) + {x}, TREEBINS, TREEBINS + 256)
    {
      hide TreesOk, Touched, ViewsOf, Spaced, Blank, Bin, Appended, LargeSize;
      ghost var L, m0 := Large(C), arena.mem;
      LooseInLarge(m0, treemap, C, forest, fifo, x, s);
      TreeNode(m0, treemap, C, forest, fifo, s);
      BlankView(m0, C, x, Bin(s));
      var F := Rd(arena.mem, T + 16);
      if T >= arena.leastAddr && F >= arena.leastAddr {
        arena.SetBk(F, x, L);
        arena.SetFd(T, x, L);
        arena.SetFd(x, F, L);
        arena.SetBk(x, T, L);
        arena.SetParent(x, 0, L);
        ChainViews(ViewsOf(m0, L), T, F, x, ViewsOf(arena.mem, L));
        ChainAdded(m0, treemap, C, forest, fifo, x, s, arena.mem);
        fifo := fifo[s := fifo[s] + [x]];
      } else {
        assert false;  // CORRUPTION_ERROR_ACTION
      }
    }

    /** The walk of insert_large_chunk down a non-empty bin: it ends at the node of size s, or at the
        node u below which s belongs and whose child on that side is null. */
    method FindSlot(s: nat, ghost C: map<int, int>) returns (T: int, b: nat, hit: bool, ghost u: nat)
      requires Valid(C) && LargeSize(s) && Marked(treemap, Bin(s))
      ensures u in forest.nodes && T == NodeAt(fifo, u) && T >= arena.leastAddr
      ensures hit <==> s in forest.nodes
      ensures hit ==> u == s
      ensures !hit ==> Agree(s, u, forest.nodes[u].depth) && b == Turn(s, forest.nodes[u].depth)
                       && forest.nodes[u].Kid(b) == 0
    {
      hide TreesOk, Agree, Turn, OnPath, Reachable, Marked, Bin, Shl, Wrap;
      ghost var m, f, q := arena.mem, forest, fifo;
      T := Rd(arena.mem, RootWord(Bin(s)));
      var K := Shl(s, TreeIndex.LeftShift(Bin(s)));
      u := PathStarts(m, treemap, C, f, q, s, T, K);
      while true
        invariant u in f.nodes && T == NodeAt(q, u) && OnPath(f, s, u, K)
        decreases Width(s) - PathDepth(f, u)
      {
        TreeNode(m, treemap, C, f, q, u);
        ReachNode(q, u, arena.leastAddr);
        if ChunkSize(Rd(arena.mem, T + 8)) != s {
          PathStep(m, treemap, C, f, q, s, u, T, K);
          b := K / 0x8000_0000_0000_0000;
          K := Wrap(K * 2);
          var c := Rd(arena.mem, T + 32 + 8 * b);
          if c == 0 {
            return T, b, false, u;
          }
          u := f.nodes[u].Kid(b);
          T := c;
        } else {
          return T, 0, true, u;
        }
      }
    }

    /** insert_large_chunk behind a non-empty bin. */
    method InsertBelow(x: int, s: nat, ghost C: map<int, int>)
      requires Valid(C) && Unbinned(C, x, s) && Blank(arena.mem, C, x, Bin(s)) && Marked(treemap, Bin(s))
      modifies this, arena`mem
      ensures Valid(C)
      ensures fifo == old(fifo)[s := Queue(old(fifo), s) + [x]]
      ensures Touched(old(arena.mem), arena.mem, C, Members(old(fifo)) + {x}, TREEBINS, TREEBINS + 256)
    {
      hide TreesOk, Touched, Blank, Agree, Turn, Reachable, Marked, Bin;
      ghost var u;
      var T, b, hit;
      T, b, hit, u := FindSlot(s, C);
      if hit {
        LinkChain(x, s, T, C);
      } else if T >= arena.leastAddr {
        LinkLeaf(x, s, T, b, u, C);
      } else {
        assert false;  // CORRUPTION_ERROR_ACTION
      }
    }

    /** insert_large_chunk */
    method Insert(x: int, s: nat, ghost C: map<int, int>)
      requires Valid(C) && Unbinned(C, x, s)
      modifies this, arena`mem
      ensures Valid(C)
      ensures fifo == old(fifo)[s := Queue(old(fifo), s) + [x]]
      ensures Touched(old(arena.mem), arena.mem, C, Members(old(fifo)) + {x}, TREEBINS, TREEBINS + 256)
    {
      hide TreesOk, Blank, Reachable;
      var i := TreeIndex.ComputeTreeIndex(s);
      InitNode(x, s, i, C);
      ghost var m1 := arena.mem;
      if !Marked(treemap, i) {
        LinkRoot(x, s, i, C);
        assert Places(C, old(fifo)) by { TreesPlaces(m1, old(treemap), C, old(forest), old(fifo)); }
      } else {
        InsertBelow(x, s, C);
      }
    }

    /** Step 1 of unlink_large_chunk: join the neighbours of x in its ring. */
    method Unchain(x: int, ghost s: nat, ghost C: map<int, int>) returns (R: int)
      requires Valid(C) && s in fifo && x in fifo[s] && |fifo[s]| > 1
      modifies arena`mem
      ensures R == Nxt(fifo[s], IndexOf(fifo[s], x))
      ensures Unlinked(ViewsOf(old(arena.mem), Large(C)), fifo[s], IndexOf(fifo[s], x), ViewsOf(arena.mem, Large(C)))
      ensures Untouched(old(arena.mem), arena.mem, C, fifo)
    {
      hide TreesOk, Untouched, ViewsOf, Spaced, Reachable, Unlinked;
      ghost var L, m0 := Large(C), arena.mem;
      LargeSpacedIn(m0, treemap, C, forest, fifo);
      RingNode(m0, treemap, C, forest, fifo, s, x, arena.leastAddr);
      var F := Rd(arena.mem, x + 16);
      R := Rd(arena.mem, x + 24);
      if F >= arena.leastAddr && Rd(arena.mem, F + 24) == x && Rd(arena.mem, R + 16) == x {
        arena.SetBk(F, R, L);
        arena.SetFd(R, F, L);
        RingUnlinked(m0, treemap, C, forest, fifo, s, x, arena.mem);
      } else {
        assert false;  // CORRUPTION_ERROR_ACTION
      }
    }

    /** Step 2 of unlink_large_chunk: the rightmost leaf below x, and the child field that holds it. */
    method RightmostLeaf(x: int, ghost s: nat, ghost C: map<int, int>)
      returns (R: int, rp: int, side: nat, ghost r: nat)
      requires Valid(C) && s in forest.nodes && x == NodeAt(fifo, s)
      ensures R == 0 ==> IsLeaf(forest, s)
      ensures R != 0 ==> Replacement(forest, fifo, s, r, R, rp, side) && IsLeaf(forest, r) && rp >= arena.leastAddr
    {
      hide TreesOk, Reachable, Bin, Turn, Under;
      ghost var m, f, q := arena.mem, forest, fifo;
      TreeNode(m, treemap, C, f, q, s);
      ReachNode(q, s, arena.leastAddr);
      rp, side := x, 1;
      R := Rd(arena.mem, x + 40);
      if R == 0 {
        side := 0;
        R := Rd(arena.mem, x + 32);
      }
      if R == 0 {
        LeafByFields(m, treemap, C, f, q, s);
        return R, rp, side, s;
      }
      r := f.nodes[s].Kid(side);
      FirstKid(m, treemap, C, f, q, s, side);
      while true
        invariant R != 0 && Replacement(f, q, s, r, R, rp, side) && rp >= arena.leastAddr && r in f.nodes
        invariant f.nodes[r].depth <= 64
        decreases 64 - PathDepth(f, r)
      {
        TreeNode(m, treemap, C, f, q, r);
        ReachNode(q, r, arena.leastAddr);
        var b := 1;
        var c := Rd(arena.mem, R + 40);
        if c == 0 {
          b := 0;
          c := Rd(arena.mem, R + 32);
        }
        if c == 0 {
          LeafByFields(m, treemap, C, f, q, r);
          return R, rp, side, r;
        }
        NextKid(m, treemap, C, f, q, s, r, R, rp, side, b);
        rp, side := R, b;
        R := c;
        r := f.nodes[r].Kid(b);
      }
    }

    /** Step 3 of unlink_large_chunk, first half: the link that led to x leads to R. */
    method RelinkParent(x: int, XP: int, R: int, ghost s: nat, ghost r: nat, ghost L: seq<int>, ghost C: map<int, int>)
      requires VacantTrees(arena.mem, treemap, C, forest, fifo, s, x, r, L) && R == L[0] && XP == Rd(arena.mem, x + 48)
      requires Reachable(fifo, arena.leastAddr)
      modifies arena`mem
      ensures ParentRelinked(old(arena.mem), C, forest, s, XP, x, R, arena.mem)
      ensures ViewsOf(arena.mem, Large(C)) == ParentView(ViewsOf(old(arena.mem), Large(C)), forest, s, XP, x, R)
    {
      hide ViewsOf, VacantTrees, Spaced, Reachable, RootWord, NodeAt, Large;
      ghost var Ls, m0 := Large(C), arena.mem;
      VacantWords(m0, treemap, C, forest, fifo, s, x, r, L, arena.leastAddr);
      var H := RootWord(Rd(arena.mem, x + 56));
      if Rd(arena.mem, H) == x {
        arena.Write(H, R);
        RootWordLow(Bin(s));
        StaticWrite(m0, H, R, Ls);
      } else if XP >= arena.leastAddr {
        if Rd(arena.mem, XP + 32) == x {
          arena.SetChild(XP, 0, R, Ls);
        } else {
          arena.SetChild(XP, 1, R, Ls);
        }
      } else {
        assert false;  // CORRUPTION_ERROR_ACTION
      }
    }

    method TakeChild(x: int, R: int, b: int, ghost C: map<int, int>)
      requires 0 <= b < 2 && Spaced(Large(C)) && KidApart(ViewsOf(arena.mem, Large(C)), x, R, b)
      requires var c := ViewsOf(arena.mem, Large(C))[x].Kid(b); c != 0 ==> c >= arena.leastAddr
      modifies arena`mem
      ensures arena.mem == KidMem(old(arena.mem), x, R, b)
      ensures ViewsOf(arena.mem, Large(C)) == TakeKid(ViewsOf(old(arena.mem), Large(C)), x, R, b)
    {
      hide Spaced, Large;
      ghost var Ls := Large(C);
      var c := Rd(arena.mem, x + 32 + 8 * b);
      assert c == ViewsOf(arena.mem, Ls)[x].Kid(b);
      if c != 0 {
        if c >= arena.leastAddr {
          arena.SetChild(R, b, c, Ls);
          arena.SetParent(c, R, Ls);
        } else {
          assert false;  // CORRUPTION_ERROR_ACTION
        }
      }
    }

    /** Step 3 of unlink_large_chunk, second half: R takes over the parent and the children of x. */
    method RelinkKids(x: int, XP: int, R: int, ghost C: map<int, int>)
      requires Spaced(Large(C)) && KidsApart(ViewsOf(arena.mem, Large(C)), x, R)
      requires var v := ViewsOf(arena.mem, Large(C))[x];
        (v.left != 0 ==> v.left >= arena.leastAddr) && (v.right != 0 ==> v.right >= arena.leastAddr)
      modifies arena`mem
      ensures arena.mem == KidsMem(old(arena.mem), x, R, XP)
      ensures ViewsOf(arena.mem, Large(C)) == KidsView(ViewsOf(old(arena.mem), Large(C)), x, R, XP)
    {
      hide Spaced, ViewsOf, Large, KidMem;
      arena.SetParent(R, XP, Large(C));
      TakeChild(x, R, 0, C);
      TakeChild(x, R, 1, C);
    }

    /** Steps 3 of unlink_large_chunk for a node that has a replacement. */
    method Relink(x: int, XP: int, R: int, ghost s: nat, ghost r: nat, ghost L: seq<int>, ghost g: Forest,
                  ghost C: map<int, int>)
      requires VacantTrees(arena.mem, treemap, C, forest, fifo, s, x, r, L) && R == L[0] && XP == Rd(arena.mem, x + 48)
      requires Reachable(fifo, arena.leastAddr) && forall p | p in L :: p >= arena.leastAddr
      requires s in forest.nodes && Ok(g) && Renamed(forest, s, r, g) && |forest.roots| == TreeIndex.NTREEBINS
      requires g.roots == (if forest.nodes[s].depth == 0 then forest.roots[Bin(s) := r] else forest.roots)
      modifies this, arena`mem
      ensures Valid(C) && fifo == Renewed(old(fifo), s, r, L)
      ensures Touched(old(arena.mem), arena.mem, C, Members(old(fifo)) + Elems(L), TREEBINS, TREEBINS + 256)
    {
      hide ViewsOf, VacantTrees, Spaced, Reachable, Large, ParentRelinked, ParentView, KidsApart, KidsMem, KidsView,
        Renamed, Ok, Touched, TreesOk, Bin;
      ghost var m0, f, q := arena.mem, forest, fifo;
      VacantBasics(m0, treemap, C, f, q, s, x, r, L);
      VacantKids(m0, treemap, C, f, q, s, x, r, L, arena.leastAddr);
      RelinkParent(x, XP, R, s, r, L, C);
      ghost var m1 := arena.mem;
      assert R in L;
      if R >= arena.leastAddr {
        RelinkKids(x, XP, R, C);
        Relinked(m0, treemap, C, f, q, s, x, r, L, g, m1, arena.mem);
        forest := g;
        fifo := Renewed(fifo, s, r, L);
        RenewedReachable(q, s, r, L, arena.leastAddr);
      } else {
        assert false;  // CORRUPTION_ERROR_ACTION
      }
    }

    /** The end of unlink_large_chunk for a leaf that was alone in its ring. */
    method DropLeaf(x: int, XP: int, ghost s: nat, ghost C: map<int, int>)
      requires Valid(C) && IsLeaf(forest, s) && x == NodeAt(fifo, s) && XP == Rd(arena.mem, x + 48)
      modifies this, arena`mem
      ensures Valid(C) && fifo == old(fifo) - {s}
      ensures Touched(old(arena.mem), arena.mem, C, Members(old(fifo)), TREEBINS, TREEBINS + 256)
    {
      hide TreesOk, Reachable, Touched, Bin, Turn, ViewsOf, Spaced, CutLeaf, Clear, RootWord;
      ghost var m0, f, q, Ls := arena.mem, forest, fifo, Large(C);
      LargeSpacedIn(m0, treemap, C, f, q);
      TreeNode(m0, treemap, C, f, q, s);
      RootOrNot(m0, treemap, C, f, q, s, arena.leastAddr);
      var i := Rd(arena.mem, x + 56);
      var H := RootWord(i);
      if Rd(arena.mem, H) == x {
        RootDropped(m0, treemap, C, f, q, s, m0[H := 0]);
        arena.Write(H, 0);
        treemap := Clear(treemap, i);
      } else if XP >= arena.leastAddr {
        var b := if Rd(arena.mem, XP + 32) == x then 0 else 1;
        arena.SetChild(XP, b, 0, Ls);
        LeafDropped(m0, treemap, C, f, q, s, XP, b, arena.mem);
      } else {
        assert false;  // CORRUPTION_ERROR_ACTION
      }
      forest := CutLeaf(f, s);
      fifo := q - {s};
      FewerReachable(q, s, arena.leastAddr);
    }

    /** unlink_large_chunk for a chunk that shares its size with others. */
    method UnlinkChained(x: int, ghost s: nat, ghost C: map<int, int>)
      requires Valid(C) && s in fifo && x in fifo[s] && |fifo[s]| > 1
      modifies this, arena`mem
      ensures Valid(C) && fifo == Removed(old(fifo), s, IndexOf(old(fifo)[s], x))
      ensures Touched(old(arena.mem), arena.mem, C, Members(old(fifo)), TREEBINS, TREEBINS + 256)
    {
      hide TreesOk, Reachable, Bin, ViewsOf, VacantTrees, Unlinked;
      ghost var m0, f, q := arena.mem, forest, fifo;
      ChainOrTree(m0, treemap, C, f, q, s, x);
      var XP := Rd(arena.mem, x + 48);
      var R := Unchain(x, s, C);
      if XP == 0 {
        ChainUnlinked(m0, treemap, C, f, q, s, IndexOf(q[s], x), arena.mem, arena.leastAddr);
        fifo := Removed(q, s, IndexOf(q[s], x));
      } else {
        ghost var m1 := arena.mem;
        UnchainVacant(m0, treemap, C, f, q, s, x, m1);
        VacantBasics(m1, treemap, C, f, q, s, x, s, Without(q[s], 0));
        NodeRoots(f, s);
        RestReachable(q, s, arena.leastAddr);
        MembersOfRest(q, s);
        Relink(x, XP, R, s, s, Without(q[s], 0), f, C);
      }
    }

    /** unlink_large_chunk for the only chunk of its size. */
    method UnlinkSingle(x: int, ghost s: nat, ghost C: map<int, int>)
      requires Valid(C) && s in fifo && x in fifo[s] && |fifo[s]| == 1
      modifies this, arena`mem
      ensures Valid(C) && fifo == Removed(old(fifo), s, 0)
      ensures Touched(old(arena.mem), arena.mem, C, Members(old(fifo)), TREEBINS, TREEBINS + 256)
    {
      hide TreesOk, Reachable, Touched, Bin, ViewsOf, VacantTrees, Renamed, Spaced, CutLeaf, Substitute, IsLeaf;
      ghost var m0, f, q, Ls := arena.mem, forest, fifo, Large(C);
      LargeSpacedIn(m0, treemap, C, f, q);
      SingleNode(m0, treemap, C, f, q, s, x);
      var XP := Rd(arena.mem, x + 48);
      var R, rp, side;
      ghost var r;
      R, rp, side, r := RightmostLeaf(x, s, C);
      if R == 0 {
        DropLeaf(x, XP, s, C);
      } else if rp >= arena.leastAddr {
        SlotInLarge(m0, treemap, C, f, q, s, r, R, rp, side);
        arena.SetChild(rp, side, 0, Ls);
        ghost var m1 := arena.mem;
        CutVacant(m0, treemap, C, f, q, s, x, r, R, rp, side, m1);
        forest := CutLeaf(f, r);
        fifo := q - {r};
        SubstituteFacts(m1, treemap, C, forest, fifo, s, x, r, q[r]);
        FewerReachable(q, r, arena.leastAddr);
        QueueReachable(q, r, arena.leastAddr);
        Relink(x, XP, R, s, r, q[r], Substitute(forest, s, r), C);
        MembersOfCut(q, r);
        TouchedTwice(m0, m1, arena.mem, C, Members(q), Members(q - {r}) + Elems(q[r]));
        assert Renewed(q - {r}, s, r, q[r]) == q - {s};
      } else {
        assert false;  // CORRUPTION_ERROR_ACTION
      }
    }

    /** unlink_large_chunk */
    method Unlink(x: int, ghost s: nat, ghost C: map<int, int>)
      requires Valid(C) && s in fifo && x in fifo[s]
      modifies this, arena`mem
      ensures Valid(C) && fifo == Removed(old(fifo), s, IndexOf(old(fifo)[s], x))
      ensures Touched(old(arena.mem), arena.mem, C, Members(old(fifo)), TREEBINS, TREEBINS + 256)
    {
      hide TreesOk, Touched, Reachable;
      RingNode(arena.mem, treemap, C, forest, fifo, s, x, arena.leastAddr);
      if Rd(arena.mem, x + 24) != x {
        UnlinkChained(x, s, C);
      } else {
        SingleNode(arena.mem, treemap, C, forest, fifo, s, x);
        UnlinkSingle(x, s, C);
      }
    }

    // -------------------------------------------------------------------------------------
    // Searching

    /** The first loop of tmalloc_large: down the bin of nb, keeping the best fit and the deepest
        untaken right subtree. */
    method DescendFit(nb: nat, ghost C: map<int, int>)
      returns (t: int, v: int, rsize: nat, ghost ts: nat, ghost vs: nat)
      requires Valid(C) && LargeSize(nb)
      ensures t != 0 || v != 0 ==> Found(forest, fifo, nb, rsize, v, vs, t, ts)
      ensures t == 0 && v == 0 ==> rsize == WORD - nb && Landed(forest, nb, WORD - nb, 0)
    {
      hide TreesOk, Bin, Landed, Descending, Found, Shl, Walk, Reachable, LargeSize, Turn, SignWord;
      ghost var m, f, q := arena.mem, forest, fifo;
      LargeIsWord(nb);
      v, vs, rsize := 0, 0, Wrap(0 - nb);
      t := Rd(arena.mem, RootWord(Bin(nb)));
      var bits := Shl(nb, TreeIndex.LeftShift(Bin(nb)));
      ts := DescendingStarts(m, treemap, C, f, q, nb, t, bits);
      if t == 0 {
        return;
      }
      var rst := 0;
      ghost var rs := 0;
      while true
        invariant Descending(f, q, nb, rsize, t, ts, rst, rs, bits)
        invariant Fit(f, q, nb, rsize, v, vs) && (v != 0 ==> Bin(vs) == Bin(nb))
        decreases Width(nb) - PathDepth(f, ts)
      {
        DescendingNode(m, treemap, C, f, q, nb, rsize, t, ts, rst, rs, bits);
        var trem := Wrap(ChunkSize(Rd(arena.mem, t + 8)) - nb);
        ghost var rsize0 := rsize;
        if trem < rsize {
          v, vs := t, ts;
          rsize := trem;
          if rsize == 0 {
            ExactFit(f, q, nb, v, vs);
            return;
          }
        }
        DescendingStep(m, treemap, C, f, q, nb, rsize0, rsize, t, ts, rst, rs, bits);
        var b := bits / 0x8000_0000_0000_0000;
        var rt := Rd(arena.mem, t + 40);
        t := Rd(arena.mem, t + 32 + 8 * b);
        if rt != 0 && rt != t {
          rst := rt;
          rs := f.nodes[ts].right;
        }
        if t == 0 {
          t, ts := rst, rs;
          if t != 0 || v != 0 {
            DescentEnds(m, treemap, C, f, q, nb, rsize, v, vs, t, ts);
          }
          return;
        }
        ts := f.nodes[ts].Kid(b);
        bits := Wrap(bits * 2);
      }
    }

    /** If the bin of nb has no fit, tmalloc_large goes on to the root of the next non-empty bin. */
    method NextBin(nb: nat, ghost C: map<int, int>) returns (t: int, ghost ts: nat)
      requires Valid(C) && LargeSize(nb) && Landed(forest, nb, WORD - nb, 0)
      ensures Found(forest, fifo, nb, WORD - nb, 0, 0, t, ts)
    {
      hide TreesOk, Bin, Landed, Found, Reachable, LargeSize, LeftOf, LeastIndex, Marked;
      var leftbits := LeftOf(treemap, Bin(nb));
      if leftbits != 0 {
        var i := LeastIndex(leftbits);
        t := Rd(arena.mem, RootWord(i));
        NextRoot(arena.mem, treemap, C, forest, fifo, nb, i);
        ts := forest.roots[i];
      } else {
        NothingMarked(leftbits);
        NoRoot(arena.mem, treemap, C, forest, fifo, nb);
        t, ts := 0, 0;
      }
    }

    /** The last loop of both searches: from t, take the leftmost child until there is none. */
    method WalkLeftmost(nb: nat, t0: int, v0: int, rsize0: nat, ghost ts0: nat, ghost vs0: nat, ghost C: map<int, int>)
      returns (v: int, rsize: nat, ghost vs: nat)
      requires Valid(C) && 0 < nb < WORD && Found(forest, fifo, nb, rsize0, v0, vs0, t0, ts0)
      ensures v == 0 ==> v0 == 0 && rsize == rsize0 && forall s | s in fifo :: s < nb
      ensures v != 0 ==> vs in fifo && fifo[vs] != [] && v == fifo[vs][0] && vs == nb + rsize
                         && forall s | s in fifo :: s < nb || s >= vs
    {
      hide TreesOk, Reachable, Bin;
      ghost var m, f, q := arena.mem, forest, fifo;
      var t := t0;
      ghost var ts := ts0;
      v, rsize, vs := v0, rsize0, vs0;
      while t != 0
        invariant Found(f, q, nb, rsize, v, vs, t, ts)
        invariant v == 0 ==> v0 == 0 && rsize == rsize0
        decreases if t == 0 then 0 else 66 - PathDepth(f, ts)
      {
        FoundNode(m, treemap, C, f, q, nb, rsize, v, vs, t, ts);
        var trem := Wrap(ChunkSize(Rd(arena.mem, t + 8)) - nb);
        ghost var rsize1, v1, vs1 := rsize, v, vs;
        if trem < rsize {
          rsize := trem;
          v, vs := t, ts;
        }
        FoundStep(m, treemap, C, f, q, nb, rsize1, v1, vs1, rsize, v, vs, t, ts);
        var c := Rd(arena.mem, t + 32);
        t := if c != 0 then c else Rd(arena.mem, t + 40);
        ts := LeftmostKid(f, ts);
        FoundNext(m, treemap, C, f, q, nb, rsize, v, vs, t, ts);
      }
      FoundAll(m, treemap, C, f, q, nb, rsize, v, vs);
    }

    /** The search of tmalloc_large: the tree node of the least size that fits nb, if any, and how
        much larger than nb it is. */
    method FindBestFit(nb: nat, ghost C: map<int, int>) returns (v: int, rsize: nat, ghost vs: nat)
      requires Valid(C) && LargeSize(nb)
      ensures v == 0 ==> rsize == WORD - nb && forall s | s in fifo :: s < nb
      ensures v != 0 ==> vs in fifo && fifo[vs] != [] && v == fifo[vs][0] && vs == nb + rsize
                         && forall s | s in fifo :: s < nb || s >= vs
    {
      hide TreesOk, Reachable, Bin, Landed;
      LargeIsWord(nb);
      var t;
      ghost var ts;
      t, v, rsize, ts, vs := DescendFit(nb, C);
      if t == 0 && v == 0 {
        t, ts := NextBin(nb, C);
        vs := 0;
      }
      v, rsize, vs := WalkLeftmost(nb, t, v, rsize, ts, vs, C);
    }

    /** The search of tmalloc_small: the smallest of all tree chunks. */
    method FindSmallest(nb: nat, ghost C: map<int, int>) returns (v: int, rsize: nat, ghost vs: nat)
      requires Valid(C) && 0 < nb < TreeIndex.MIN_LARGE_SIZE && treemap != 0
      ensures vs in fifo && fifo[vs] != [] && v == fifo[vs][0] && vs == nb + rsize
      ensures forall s | s in fifo :: s >= vs
    {
      hide TreesOk, Found, Reachable, Bin, LeastIndex, Marked;
      var i := LeastIndex(treemap);
      var t := Rd(arena.mem, RootWord(i));
      FirstRoot(arena.mem, treemap, C, forest, fifo, nb, i);
      rsize := ChunkSize(Rd(arena.mem, t + 8)) - nb;
      v, rsize, vs := WalkLeftmost(nb, t, t, rsize, forest.roots[i], forest.roots[i], C);
      AllLarge(arena.mem, treemap, C, forest, fifo);
    }
  }
}
