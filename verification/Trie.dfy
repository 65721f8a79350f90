/** The shape of the treebins: one bitwise trie per bin, keyed on chunk sizes.  A trie holds one
    node per size, so its nodes are named by their sizes here; TreeBins.dfy ties this shape to the
    pointers in memory. */
module Trie {
  import opened Words
  import opened TreeIndex

  /** A trie node: its depth, and the sizes of its parent and children (0 where there is none). */
  datatype Node = Node(depth: nat, parent: nat, left: nat, right: nat) {
    function Kid(b: nat): nat {
      if b == 0 then left else right
    }

    function SetKid(b: nat, s: nat): Node {
      if b == 0 then this.(left := s) else this.(right := s)
    }
  }

  /** All 32 treebins: the nodes of every trie, and the root size of each bin (0 when empty). */
  datatype Forest = Forest(nodes: map<nat, Node>, roots: seq<nat>)

  predicate LargeSize(s: nat) {
    MIN_LARGE_SIZE <= s < WORD && s % 8 == 0
  }

  function Bin(s: nat): Bin {
    if s < WORD then ComputeTreeIndex(s) else 0
  }

  function Width(s: nat): (w: nat)
    ensures 7 <= w <= 64
  {
    TreeIndex.Width(Bin(s))
  }

  /** The bits of a size that are decided by a path of length d. */
  function Key(s: nat, d: nat): nat {
    if d <= Width(s) then Hi(s, Width(s) - d) else 0
  }

  /** The bit that chooses the child below a node of depth d. */
  function Turn(s: nat, d: nat): (b: nat)
    ensures b < 2
  {
    Key(s, d + 1) % 2
  }

  /** Two sizes share their bin and the first d turns. */
  predicate Agree(s: nat, t: nat, d: nat) {
    Bin(s) == Bin(t) && Key(s, d) == Key(t, d)
  }

  /** The node s is where its parent says it is, and its children are where it says they are. */
  predicate NodeOk(f: Forest, s: nat)
    requires s in f.nodes && |f.roots| == NTREEBINS
  {
    var n := f.nodes[s];
    && LargeSize(s)
    && n.depth + 3 <= Width(s)
    && (n.depth == 0 <==> n.parent == 0)
    && (n.depth == 0 ==> f.roots[Bin(s)] == s)
    && (n.depth > 0 ==>
          && n.parent in f.nodes
          && f.nodes[n.parent].depth == n.depth - 1
          && Agree(s, n.parent, n.depth - 1)
          && f.nodes[n.parent].Kid(Turn(s, n.depth - 1)) == s)
    && KidOk(f, s, 0) && KidOk(f, s, 1)
  }

  predicate KidOk(f: Forest, s: nat, b: nat)
    requires s in f.nodes
  {
    var k := f.nodes[s].Kid(b);
    k != 0 ==> k in f.nodes && f.nodes[k].parent == s && Turn(k, f.nodes[s].depth) == b
  }

  /** The trie invariant of all bins. */
  ghost predicate Ok(f: Forest) {
    && |f.roots| == NTREEBINS
    && (forall s {:trigger NodeOk(f, s)} | s in f.nodes :: NodeOk(f, s))
    && (forall i | 0 <= i < NTREEBINS :: f.roots[i] != 0 ==>
          f.roots[i] in f.nodes && Bin(f.roots[i]) == i && f.nodes[f.roots[i]].depth == 0)
  }

  // ---------------------------------------------------------------------------------------
  // Prefixes

  lemma KeyHalves(s: nat, d: nat)
    requires d < Width(s)
    ensures Key(s, d) == Key(s, d + 1) / 2
  {
  }

  lemma AgreeOnce(s: nat, t: nat)
    requires LargeSize(s) && LargeSize(t) && Bin(s) == Bin(t)
    ensures Agree(s, t, 0)
  {
    BinFixesPrefix(s);
    BinFixesPrefix(t);
  }

  lemma AgreeMore(s: nat, t: nat, d: nat)
    requires d < Width(s) && Agree(s, t, d) && Turn(s, d) == Turn(t, d)
    ensures Agree(s, t, d + 1)
  {
    KeyHalves(s, d);
    KeyHalves(t, d);
  }

  lemma {:induction false} AgreeLess(s: nat, t: nat, d: nat, c: nat)
    requires c <= d <= Width(s) && Agree(s, t, d)
    ensures Agree(s, t, c)
  {
    if c < d {
      KeyHalves(s, d - 1);
      KeyHalves(t, d - 1);
      AgreeLess(s, t, d - 1, c);
    }
  }

  /** Different sizes in one subtree leave room below it. */
  lemma RoomBelow(s: nat, t: nat, d: nat)
    requires LargeSize(s) && LargeSize(t) && s != t && d <= Width(s) && Agree(s, t, d)
    ensures d + 4 <= Width(s)
  {
    if Width(s) - d <= 3 {
      HiSeparates8(s, t, Width(s) - d);
    }
  }

  /** At the first differing turn, the size that turns left is the smaller one. */
  lemma LeftIsSmaller(s: nat, t: nat, d: nat)
    requires d < Width(s) && Agree(s, t, d) && Turn(s, d) == 0 && Turn(t, d) == 1
    ensures s < t
  {
    KeyHalves(s, d);
    KeyHalves(t, d);
    if t <= s { HiMono(t, s, Width(s) - (d + 1)); }
  }

  lemma NodeSize(f: Forest, s: nat)
    requires Ok(f) && s in f.nodes
    ensures LargeSize(s) && f.nodes[s].depth + 3 <= Width(s)
  {
    assert NodeOk(f, s);
  }

  // ---------------------------------------------------------------------------------------
  // What the invariant says about whole subtrees

  /** s is in the subtree of u. */
  predicate Under(f: Forest, s: nat, u: nat)
    requires u in f.nodes
  {
    s in f.nodes && f.nodes[u].depth <= f.nodes[s].depth && Agree(s, u, f.nodes[u].depth)
  }

  /** A path leads to one node only. */
  lemma {:induction false} OnePlace(f: Forest, s: nat, u: nat)
    requires Ok(f) && s in f.nodes && u in f.nodes
    requires f.nodes[s].depth == f.nodes[u].depth && Agree(s, u, f.nodes[s].depth)
    ensures s == u
    decreases f.nodes[s].depth
  {
    var d := f.nodes[s].depth;
    assert NodeOk(f, s) && NodeOk(f, u);
    if d > 0 {
      var p, q := f.nodes[s].parent, f.nodes[u].parent;
      AgreeLess(s, u, d, d - 1);
      OnePlace(f, p, q);
    }
  }

  /** The child towards a deeper node of the subtree exists, and that node is under it. */
  lemma {:induction false} KidTowards(f: Forest, s: nat, u: nat)
    requires Ok(f) && u in f.nodes && Under(f, s, u) && f.nodes[u].depth < f.nodes[s].depth
    ensures var k := f.nodes[u].Kid(Turn(s, f.nodes[u].depth));
      k != 0 && k in f.nodes && f.nodes[k].depth == f.nodes[u].depth + 1 && Under(f, s, k)
    decreases f.nodes[s].depth
  {
    hide Key, Bin, Width, KidOk;
    var e, d := f.nodes[u].depth, f.nodes[s].depth;
    assert NodeOk(f, s) && NodeOk(f, u);
    var p := f.nodes[s].parent;
    assert NodeOk(f, p);
    AgreeLess(s, p, d - 1, e);
    if d == e + 1 {
      OnePlace(f, p, u);
    } else {
      KidTowards(f, p, u);
      AgreeLess(s, p, d - 1, e + 1);
    }
  }

  /** A child is one level down and its subtree is part of its parent's. */
  lemma KidIsUnder(f: Forest, u: nat, b: nat)
    requires Ok(f) && u in f.nodes && b < 2 && f.nodes[u].Kid(b) != 0
    ensures var k := f.nodes[u].Kid(b);
      && k in f.nodes && NodeOk(f, k) && f.nodes[k].depth == f.nodes[u].depth + 1
      && Bin(k) == Bin(u) && Agree(k, u, f.nodes[u].depth) && Turn(k, f.nodes[u].depth) == b
      && k != u
      && (forall s | Under(f, s, k) :: Under(f, s, u) && Turn(s, f.nodes[u].depth) == b)
  {
    hide Key, Bin, Width;
    assert NodeOk(f, u);
    assert KidOk(f, u, b);
    var k := f.nodes[u].Kid(b);
    assert NodeOk(f, k);
    var e := f.nodes[u].depth;
    forall s | Under(f, s, k) ensures Under(f, s, u) && Turn(s, e) == b {
      UnderKid(f, s, k, u, b);
    }
  }

  lemma UnderKid(f: Forest, s: nat, k: nat, u: nat, b: nat)
    requires Ok(f) && u in f.nodes && k in f.nodes && Under(f, s, k)
    requires f.nodes[k].depth == f.nodes[u].depth + 1
    requires Agree(k, u, f.nodes[u].depth) && Turn(k, f.nodes[u].depth) == b
    ensures Under(f, s, u) && Turn(s, f.nodes[u].depth) == b
  {
    hide Key, Bin, Width, KidOk, LargeSize;
    assert NodeOk(f, s);
    AgreeLess(s, k, f.nodes[k].depth, f.nodes[u].depth);
  }

  /** Every node of a bin is under the bin's root. */
  lemma UnderRoot(f: Forest, s: nat)
    requires Ok(f) && s in f.nodes
    ensures var r := f.roots[Bin(s)]; r != 0 && r in f.nodes && Under(f, s, r)
    decreases f.nodes[s].depth
  {
    assert NodeOk(f, s);
    if f.nodes[s].depth > 0 {
      UnderRoot(f, f.nodes[s].parent);
    }
    var r := f.roots[Bin(s)];
    assert NodeOk(f, r);
    AgreeOnce(s, r);
  }

  // ---------------------------------------------------------------------------------------
  // Insertion and removal

  /** A first node in an empty bin. */
  function AddRoot(f: Forest, s: nat): Forest
    requires |f.roots| == NTREEBINS
  {
    f.(nodes := f.nodes[s := Node(0, 0, 0, 0)], roots := f.roots[Bin(s) := s])
  }

  /** A new leaf below u, on the side that its own bits choose. */
  function AddLeaf(f: Forest, s: nat, u: nat): Forest
    requires u in f.nodes
  {
    var n := f.nodes[u];
    f.(nodes := f.nodes[u := n.SetKid(Turn(s, n.depth), s)][s := Node(n.depth + 1, u, 0, 0)])
  }

  predicate IsLeaf(f: Forest, s: nat) {
    s in f.nodes && f.nodes[s].left == 0 && f.nodes[s].right == 0
  }

  /** The link that leads to s now leads to k (0 for nowhere). */
  function Relink(f: Forest, s: nat, k: nat): Forest
    requires s in f.nodes && |f.roots| == NTREEBINS
  {
    var n := f.nodes[s];
    if n.depth == 0 then f.(roots := f.roots[Bin(s) := k])
    else if n.parent in f.nodes then
      f.(nodes := f.nodes[n.parent := f.nodes[n.parent].SetKid(Turn(s, n.depth - 1), k)])
    else f
  }

  /** Remove a leaf. */
  function CutLeaf(f: Forest, s: nat): Forest
    requires s in f.nodes && |f.roots| == NTREEBINS
  {
    var g := Relink(f, s, 0);
    g.(nodes := g.nodes - {s})
  }

  function Adopt(nodes: map<nat, Node>, k: nat, p: nat): map<nat, Node> {
    if k != 0 && k in nodes then nodes[k := nodes[k].(parent := p)] else nodes
  }

  /** Put r, which is in no trie, in the place of x. */
  function Substitute(f: Forest, x: nat, r: nat): Forest
    requires x in f.nodes && |f.roots| == NTREEBINS
  {
    var g := Relink(f, x, r);
    var n := f.nodes[x];
    g.(nodes := Adopt(Adopt(g.nodes, n.left, r), n.right, r)[r := n] - {x})
  }

  lemma AddRootOk(f: Forest, s: nat)
    requires Ok(f) && LargeSize(s) && f.roots[Bin(s)] == 0
    ensures Ok(AddRoot(f, s)) && AddRoot(f, s).nodes.Keys == f.nodes.Keys + {s}
  {
    hide Key, Width, Hi, ComputeTreeIndex;
    var g := AddRoot(f, s);
    if s in f.nodes { UnderRoot(f, s); }
    forall t | t in g.nodes ensures NodeOk(g, t) {
      if t != s {
        assert NodeOk(f, t);
        if f.nodes[t].depth == 0 { assert Bin(t) != Bin(s); }
      }
    }
  }

  lemma RoomAtLeaf(f: Forest, s: nat, u: nat)
    requires LargeSize(s) && s !in f.nodes && u in f.nodes && |f.roots| == NTREEBINS && NodeOk(f, u)
    requires Agree(s, u, f.nodes[u].depth)
    ensures f.nodes[u].depth + 4 <= Width(s)
  {
    hide Key, Hi, ComputeTreeIndex, KidOk;
    RoomBelow(s, u, f.nodes[u].depth);
  }

  lemma AddLeafOk(f: Forest, s: nat, u: nat)
    requires Ok(f) && LargeSize(s) && s !in f.nodes && u in f.nodes
    requires Agree(s, u, f.nodes[u].depth) && f.nodes[u].Kid(Turn(s, f.nodes[u].depth)) == 0
    ensures Ok(AddLeaf(f, s, u)) && AddLeaf(f, s, u).nodes.Keys == f.nodes.Keys + {s}
    ensures AddLeaf(f, s, u).nodes[s].depth + 3 <= Width(s)
  {
    hide Width, Agree, Turn, Bin;
    var g := AddLeaf(f, s, u);
    assert NodeOk(f, u);
    RoomAtLeaf(f, s, u);
    forall t | t in g.nodes ensures NodeOk(g, t) {
      if t == s {
      } else if t == u {
      } else {
        assert NodeOk(f, t);
      }
    }
  }

  lemma CutLeafOk(f: Forest, s: nat)
    requires Ok(f) && IsLeaf(f, s)
    ensures Ok(CutLeaf(f, s)) && CutLeaf(f, s).nodes.Keys == f.nodes.Keys - {s}
  {
    hide Key, Width, Hi, ComputeTreeIndex;
    var g := CutLeaf(f, s);
    assert NodeOk(f, s);
    forall t | t in g.nodes ensures NodeOk(g, t) {
      assert NodeOk(f, t);
    }
  }

  /** The node of t after r has taken the place of x. */
  function Moved(f: Forest, x: nat, r: nat, t: nat): Node
    requires x in f.nodes && t in f.nodes
  {
    var n, p := f.nodes[x], f.nodes[t];
    if p.parent == x then p.(parent := r)
    else if n.depth > 0 && t == n.parent then p.SetKid(Turn(x, n.depth - 1), r)
    else p
  }

  ghost predicate Substituted(f: Forest, x: nat, r: nat, g: Forest)
    requires x in f.nodes && |f.roots| == NTREEBINS
  {
    && g.nodes.Keys == f.nodes.Keys - {x} + {r}
    && g.nodes[r] == f.nodes[x]
    && |g.roots| == NTREEBINS
    && g.roots == (if f.nodes[x].depth == 0 then f.roots[Bin(x) := r] else f.roots)
    && (forall t | t in f.nodes && t != x :: g.nodes[t] == Moved(f, x, r, t))
  }

  lemma SubstituteShape(f: Forest, x: nat, r: nat)
    requires Ok(f) && x in f.nodes && r !in f.nodes && r != 0
    ensures Substituted(f, x, r, Substitute(f, x, r))
  {
    hide Turn, Key, Width, Hi, ComputeTreeIndex, Bin;
    var n, g := f.nodes[x], Substitute(f, x, r);
    assert NodeOk(f, x);
    forall t | t in f.nodes && t != x ensures g.nodes[t] == Moved(f, x, r, t) {
      assert NodeOk(f, t);
      if n.depth > 0 { assert NodeOk(f, n.parent); }
    }
  }

  lemma SubstituteOk(f: Forest, x: nat, r: nat)
    requires Ok(f) && x in f.nodes && LargeSize(r) && r !in f.nodes
    requires Agree(r, x, f.nodes[x].depth) && f.nodes[x].depth + 3 <= Width(r)
    ensures Ok(Substitute(f, x, r)) && Substitute(f, x, r).nodes.Keys == f.nodes.Keys - {x} + {r}
  {
    hide Key, Width, Hi, ComputeTreeIndex, Substitute, NodeOk, Moved, Turn;
    SubstituteShape(f, x, r);
    var g := Substitute(f, x, r);
    forall t | t in g.nodes ensures NodeOk(g, t) {
      if t == r {
        SubstituteNew(f, x, r, g);
      } else {
        SubstituteOld(f, x, r, t, g);
      }
    }
    SubstituteRoots(f, x, r, g);
  }

  lemma SubstituteRoots(f: Forest, x: nat, r: nat, g: Forest)
    requires Ok(f) && x in f.nodes && LargeSize(r) && r !in f.nodes && Bin(r) == Bin(x)
    requires Substituted(f, x, r, g)
    ensures forall i | 0 <= i < NTREEBINS :: g.roots[i] != 0 ==>
              g.roots[i] in g.nodes && Bin(g.roots[i]) == i && g.nodes[g.roots[i]].depth == 0
  {
    hide Key, Width, Hi, ComputeTreeIndex, Bin, Turn;
    assert NodeOk(f, x);
  }

  lemma SubstituteNew(f: Forest, x: nat, r: nat, g: Forest)
    requires Ok(f) && x in f.nodes && LargeSize(r) && r !in f.nodes
    requires Agree(r, x, f.nodes[x].depth) && f.nodes[x].depth + 3 <= Width(r)
    requires Substituted(f, x, r, g)
    ensures NodeOk(g, r)
  {
    hide Key, Width, Hi, ComputeTreeIndex, Bin;
    var n := f.nodes[x];
    assert NodeOk(f, x);
    if n.left != 0 { assert NodeOk(f, n.left); }
    if n.right != 0 { assert NodeOk(f, n.right); }
    if n.depth > 0 {
      assert NodeOk(f, n.parent);
      TurnAgrees(r, x, n.depth);
    }
  }

  lemma TurnAgrees(s: nat, t: nat, d: nat)
    requires 0 < d <= Width(s) && Agree(s, t, d)
    ensures Turn(s, d - 1) == Turn(t, d - 1) && Agree(s, t, d - 1)
  {
    hide Key;
    AgreeLess(s, t, d, d - 1);
  }

  lemma SubstituteOld(f: Forest, x: nat, r: nat, t: nat, g: Forest)
    requires Ok(f) && x in f.nodes && LargeSize(r) && r !in f.nodes
    requires Agree(r, x, f.nodes[x].depth) && f.nodes[x].depth + 3 <= Width(r)
    requires Substituted(f, x, r, g) && t in f.nodes && t != x
    ensures NodeOk(g, t)
  {
    hide Key, Width, Hi, ComputeTreeIndex, Bin;
    var n, p := f.nodes[x], f.nodes[t];
    assert NodeOk(f, x) && NodeOk(f, t);
    if p.parent != 0 { assert NodeOk(f, p.parent); }
    if n.depth > 0 { TurnAgrees(r, x, n.depth); }
    assert g.nodes[t] == Moved(f, x, r, t);
    if p.depth > 0 && p.parent != x { assert g.nodes[p.parent] == Moved(f, x, r, p.parent); }
    assert KidOk(g, t, 0) by { SubstituteKid(f, x, r, t, g, 0); }
    assert KidOk(g, t, 1) by { SubstituteKid(f, x, r, t, g, 1); }
  }

  lemma SubstituteKid(f: Forest, x: nat, r: nat, t: nat, g: Forest, b: nat)
    requires Ok(f) && x in f.nodes && LargeSize(r) && r !in f.nodes && b < 2
    requires Agree(r, x, f.nodes[x].depth) && f.nodes[x].depth + 3 <= Width(r)
    requires Substituted(f, x, r, g) && t in f.nodes && t != x
    ensures KidOk(g, t, b)
  {
    hide Key, Width, Hi, ComputeTreeIndex, Bin;
    var n, k := f.nodes[x], f.nodes[t].Kid(b);
    assert NodeOk(f, x) && NodeOk(f, t);
    assert KidOk(f, t, b);
    if n.depth > 0 { TurnAgrees(r, x, n.depth); }
    if k != 0 && k != x { assert NodeOk(f, k); }
  }
}
