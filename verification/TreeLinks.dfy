/** How the fields of large free chunks represent the treebins (malloc.c, "Overlaid data
    structures" and "Operations on trees").  For every size there is one queue of chunks, oldest
    first; its first chunk is the tree node, the others hang off it by fd/bk. */
module TreeLinks {
  import TreeIndex
  import opened Trie
  import opened ChunkMemory
  import opened Lists

  type Fifo = map<nat, seq<int>>

  /** The tree node of size s; 0 is the null pointer. */
  function NodeAt(q: Fifo, s: nat): int {
    if s in q && q[s] != [] then q[s][0] else 0
  }

  function RootWord(i: TreeIndex.Bin): int {
    TREEBINS + 8 * i
  }

  /** What the parent field of the tree node of size s points to. */
  function ParentAt(f: Forest, q: Fifo, s: nat): int
    requires s in f.nodes
  {
    if f.nodes[s].depth == 0 then RootWord(Bin(s)) else NodeAt(q, f.nodes[s].parent)
  }

  /** The chunks of L form a ring: bk leads from each to the next younger one, fd back. */
  ghost predicate Ring(V: Views, L: seq<int>) {
    forall k | 0 <= k < |L| :: L[k] in V && V[L[k]].bk == Nxt(L, k) && V[L[k]].fd == Prv(L, k)
  }

  /** The chunks behind the tree node have no tree links. */
  ghost predicate Chained(V: Views, L: seq<int>, i: int) {
    forall k | 0 < k < |L| :: L[k] in V && V[L[k]].left == 0 && V[L[k]].right == 0 && V[L[k]].parent == 0
                              && V[L[k]].index == i
  }

  ghost predicate NodeFields(V: Views, f: Forest, q: Fifo, s: nat)
    requires s in f.nodes && s in q
  {
    && q[s] != []
    && Ring(V, q[s])
    && Chained(V, q[s], Bin(s))
    && q[s][0] in V
    && V[q[s][0]].left == NodeAt(q, f.nodes[s].left)
    && V[q[s][0]].right == NodeAt(q, f.nodes[s].right)
    && V[q[s][0]].parent == ParentAt(f, q, s)
    && V[q[s][0]].index == Bin(s)
  }

  ghost predicate LinksOk(V: Views, f: Forest, q: Fifo) {
    && q.Keys == f.nodes.Keys
    && forall s {:trigger NodeFields(V, f, q, s)} | s in f.nodes :: NodeFields(V, f, q, s)
  }

  /** Every chunk of a queue has the queue's size. */
  ghost predicate Places(C: map<int, int>, q: Fifo) {
    forall s | s in q :: Distinct(q[s]) && forall k | 0 <= k < |q[s]| ::
      q[s][k] in C && C[q[s][k]] == s && q[s][k] >= HEAP_MIN
  }

  function Queue(q: Fifo, s: nat): seq<int> {
    if s in q then q[s] else []
  }

  /** The queues with the j-th chunk of size s taken out. */
  function Removed(q: Fifo, s: nat, j: nat): Fifo
    requires s in q && j < |q[s]|
  {
    if |q[s]| == 1 then q - {s} else q[s := Without(q[s], j)]
  }

  // ---------------------------------------------------------------------------------------
  // Insertion

  lemma ChainPlaces(C: map<int, int>, q: Fifo, s: nat, x: int)
    requires Places(C, q) && x in C && C[x] == s && x !in Queue(q, s) && x >= HEAP_MIN
    ensures Places(C, q[s := Queue(q, s) + [x]])
  {
  }

  /** A node whose own chunks, shape and neighbours are the same keeps its fields. */
  lemma FieldsFrame(V: Views, f: Forest, q: Fifo, V': Views, f': Forest, q': Fifo, t: nat)
    requires t in f.nodes && t in q && NodeFields(V, f, q, t)
    requires t in f'.nodes && t in q' && q'[t] == q[t] && f'.nodes[t] == f.nodes[t]
    requires forall k | 0 <= k < |q[t]| :: q[t][k] in V' && V'[q[t][k]] == V[q[t][k]]
    requires NodeAt(q', f.nodes[t].left) == NodeAt(q, f.nodes[t].left)
    requires NodeAt(q', f.nodes[t].right) == NodeAt(q, f.nodes[t].right)
    requires f.nodes[t].depth > 0 ==> NodeAt(q', f.nodes[t].parent) == NodeAt(q, f.nodes[t].parent)
    ensures NodeFields(V', f', q', t)
  {
  }

  lemma RingAppend(V: Views, L: seq<int>, x: int, V': Views)
    requires L != [] && Ring(V, L) && Distinct(L) && x !in L && x in V
    requires var T, F := L[0], L[|L| - 1];
      var W := V[T := V[T].(fd := x)];
      V' == W[F := W[F].(bk := x)][x := V[x].(fd := F, bk := T)]
    ensures Ring(V', L + [x])
  {
    var M := L + [x];
    var T, F := L[0], L[|L| - 1];
    forall k | 0 <= k < |M| ensures M[k] in V' && V'[M[k]].bk == Nxt(M, k) && V'[M[k]].fd == Prv(M, k) {
      if k == |L| {
        assert M[k] == x && Prv(M, k) == F && Nxt(M, k) == T;
      } else {
        assert M[k] == L[k] && L[k] in L && V[L[k]].bk == Nxt(L, k) && V[L[k]].fd == Prv(L, k);
        assert L[k] == F <==> k == |L| - 1;
        assert L[k] == T <==> k == 0;
      }
    }
  }

  /** The updates that link x behind the last chunk of the ring L. */
  ghost predicate Appended(V: Views, L: seq<int>, x: int, V': Views) {
    && L != [] && L[0] in V && L[|L| - 1] in V && x in V && x !in L
    && V[x].left == 0 && V[x].right == 0 && V[x].parent == 0
    && var T, F := L[0], L[|L| - 1];
       var W := V[T := V[T].(fd := x)];
       V' == W[F := W[F].(bk := x)][x := V[x].(fd := F, bk := T)]
  }

  lemma ChainOwn(V: Views, C: map<int, int>, f: Forest, q: Fifo, s: nat, x: int, V': Views)
    requires LinksOk(V, f, q) && Places(C, q) && s in f.nodes && Appended(V, q[s], x, V') && V[x].index == Bin(s)
    ensures NodeFields(V', f, q[s := q[s] + [x]], s)
  {
    hide Ok, Bin;
    assert NodeFields(V, f, q, s);
    RingAppend(V, q[s], x, V');
    var M := q[s] + [x];
    forall k | 0 < k < |M|
      ensures M[k] in V' && V'[M[k]].left == 0 && V'[M[k]].right == 0 && V'[M[k]].parent == 0
        && V'[M[k]].index == Bin(s)
    {
      if k < |q[s]| { assert M[k] == q[s][k]; }
    }
  }

  lemma ChainOther(V: Views, C: map<int, int>, f: Forest, q: Fifo, s: nat, x: int, V': Views, t: nat)
    requires LinksOk(V, f, q) && Places(C, q) && s in f.nodes && Appended(V, q[s], x, V')
    requires x in C && C[x] == s && t in f.nodes && t != s
    ensures NodeFields(V', f, q[s := q[s] + [x]], t)
  {
    hide Ok, Bin, Ring, Chained, NodeFields;
    assert NodeFields(V, f, q, t);
    NodeInViews(V, f, q, t);
    FieldsFrame(V, f, q, V', f, q[s := q[s] + [x]], t);
  }

  lemma NodeInViews(V: Views, f: Forest, q: Fifo, t: nat)
    requires t in f.nodes && t in q && NodeFields(V, f, q, t)
    ensures q[t] != [] && forall k | 0 <= k < |q[t]| :: q[t][k] in V
  {
  }

  /** Linking x behind the last chunk of its size. */
  lemma ChainOk(V: Views, C: map<int, int>, f: Forest, q: Fifo, s: nat, x: int, V': Views)
    requires LinksOk(V, f, q) && Places(C, q) && s in f.nodes && Appended(V, q[s], x, V')
    requires x in C && C[x] == s && V[x].index == Bin(s)
    ensures LinksOk(V', f, q[s := q[s] + [x]])
  {
    hide NodeFields, Bin, Appended, Places;
    forall t | t in f.nodes ensures NodeFields(V', f, q[s := q[s] + [x]], t) {
      if t == s { ChainOwn(V, C, f, q, s, x, V'); } else { ChainOther(V, C, f, q, s, x, V', t); }
    }
  }

  /** x carries the fields of a new node of size s below nothing or below the word or node at parent. */
  ghost predicate NewNode(V: Views, s: nat, x: int, parent: int) {
    x in V && V[x] == Links(x, x, 0, 0, parent, Bin(s))
  }

  /** The neighbours of a node are nodes, and its fields mention no other size. */
  lemma Neighbours(f: Forest, t: nat, s: nat)
    requires Ok(f) && t in f.nodes && s !in f.nodes
    ensures s != f.nodes[t].left || s == 0
    ensures s != f.nodes[t].right || s == 0
    ensures f.nodes[t].depth > 0 ==> s != f.nodes[t].parent
  {
    assert NodeOk(f, t);
    assert KidOk(f, t, 0) && KidOk(f, t, 1);
  }

  lemma NewRootOk(V: Views, C: map<int, int>, f: Forest, q: Fifo, s: nat, x: int, V': Views)
    requires Ok(f) && LinksOk(V, f, q) && Places(C, q) && s !in f.nodes && s != 0
    requires x in C && C[x] == s && V'.Keys == V.Keys && NewNode(V', s, x, RootWord(Bin(s)))
    requires forall p | p in V && p != x :: V'[p] == V[p]
    requires |f.roots| == TreeIndex.NTREEBINS
    ensures LinksOk(V', AddRoot(f, s), q[s := [x]])
  {
    hide Ok, Bin, Ring, Chained, NodeFields, NodeOk;
    var f', q' := AddRoot(f, s), q[s := [x]];
    forall t | t in f'.nodes ensures NodeFields(V', f', q', t) {
      if t == s {
        NoZeroSize(f);
        NewNodeFields(V', f', q', s, x);
      } else {
        assert NodeFields(V, f, q, t);
        Neighbours(f, t, s);
        NodeInViews(V, f, q, t);
        FieldsFrame(V, f, q, V', f', q', t);
      }
    }
  }

  lemma NewNodeFields(V: Views, f: Forest, q: Fifo, s: nat, x: int)
    requires s in f.nodes && s in q && q[s] == [x] && NodeAt(q, 0) == 0
    requires f.nodes[s].left == 0 && f.nodes[s].right == 0 && NewNode(V, s, x, ParentAt(f, q, s))
    ensures NodeFields(V, f, q, s)
  {
  }

  lemma NewLeafOk(V: Views, C: map<int, int>, f: Forest, q: Fifo, s: nat, u: nat, x: int, V': Views)
    requires Ok(f) && LinksOk(V, f, q) && Places(C, q) && s !in f.nodes && s != 0 && u in f.nodes
    requires x in C && C[x] == s && V'.Keys == V.Keys && NewNode(V', s, x, NodeAt(q, u))
    requires var U := NodeAt(q, u);
      U in V && V'[U] == V[U].SetKid(Turn(s, f.nodes[u].depth), x)
    requires forall p | p in V && p != x && p != NodeAt(q, u) :: V'[p] == V[p]
    requires f.nodes[u].Kid(Turn(s, f.nodes[u].depth)) == 0
    ensures LinksOk(V', AddLeaf(f, s, u), q[s := [x]])
  {
    hide Ok, Bin, Ring, Chained, NodeFields, NodeOk, Turn;
    var f', q' := AddLeaf(f, s, u), q[s := [x]];
    forall t | t in f'.nodes ensures NodeFields(V', f', q', t) {
      if t == s {
        NoZeroSize(f);
        NewNodeFields(V', f', q', s, x);
      } else {
        assert NodeFields(V, f, q, t);
        Neighbours(f, t, s);
        NodeInViews(V, f, q, t);
        if t == u {
          assert q[u] == q'[u];
          NoZeroSize(f);
          LeafParentFields(V, f, q, s, u, x, V', f', q');
        } else {
          assert NodeFields(V, f, q, u);
          NodeInViews(V, f, q, u);
          OtherNode(C, q, u, t);
          FieldsFrame(V, f, q, V', f', q', t);
        }
      }
    }
  }

  lemma NoZeroSize(f: Forest)
    requires Ok(f)
    ensures 0 !in f.nodes
  {
    if 0 in f.nodes { NodeSize(f, 0); }
  }

  lemma OtherNode(C: map<int, int>, q: Fifo, u: nat, t: nat)
    requires Places(C, q) && u in q && t in q && u != t && q[u] != []
    ensures NodeAt(q, u) !in q[t]
  {
  }

  lemma LeafParentFields(V: Views, f: Forest, q: Fifo, s: nat, u: nat, x: int, V': Views, f': Forest, q': Fifo)
    requires Ok(f) && u in f.nodes && u in q && NodeFields(V, f, q, u) && Distinct(q[u]) && x !in q[u]
    requires s !in f.nodes && s != 0 && 0 !in f.nodes && 0 !in q
    requires V'.Keys == V.Keys && q' == q[s := [x]] && f' == AddLeaf(f, s, u)
    requires f.nodes[u].Kid(Turn(s, f.nodes[u].depth)) == 0
    requires V'[q[u][0]] == V[q[u][0]].SetKid(Turn(s, f.nodes[u].depth), x)
    requires forall p | p in V && p != x && p != q[u][0] :: V'[p] == V[p]
    ensures NodeFields(V', f', q', u)
  {
    hide Ok, Bin, Turn, Ring;
    Neighbours(f, u, s);
    assert Distinct(q[u]) && Ring(V', q[u]) by { RingFrame(V, V', q[u], q[u][0]); }
    var n, m := f.nodes[u], f'.nodes[u];
    assert m.parent == n.parent && m.depth == n.depth;
    assert ParentAt(f', q', u) == ParentAt(f, q, u);
    assert q'[u] == q[u];
  }

  /** Tree fields do not matter to rings. */
  lemma RingFrame(V: Views, V': Views, L: seq<int>, x: int)
    requires Ring(V, L) && V.Keys == V'.Keys
    requires forall k | 0 <= k < |L| :: L[k] != x ==> V'[L[k]] == V[L[k]]
    requires x in V && V'[x].fd == V[x].fd && V'[x].bk == V[x].bk
    ensures Ring(V', L)
  {
  }

  // ---------------------------------------------------------------------------------------
  // Removal

  /** Taking the j-th chunk out of a ring by joining its two neighbours. */
  ghost predicate Unlinked(V: Views, L: seq<int>, j: nat, V': Views) {
    && j < |L| && |L| > 1 && Nxt(L, j) in V && Prv(L, j) in V
    && var W := V[Prv(L, j) := V[Prv(L, j)].(bk := Nxt(L, j))];
       V' == W[Nxt(L, j) := W[Nxt(L, j)].(fd := Prv(L, j))]
  }

  /** The links of the chunks that stay. */
  lemma UnlinkedLinks(V: Views, L: seq<int>, j: nat, V': Views, i: nat)
    requires Ring(V, L) && Distinct(L) && Unlinked(V, L, j, V') && i < |L| && i != j
    ensures L[i] in V'
    ensures V'[L[i]].bk == if Nxt(L, i) == L[j] then Nxt(L, j) else Nxt(L, i)
    ensures V'[L[i]].fd == if Prv(L, i) == L[j] then Prv(L, j) else Prv(L, i)
  {
    assert L[i] in V && V[L[i]].bk == Nxt(L, i) && V[L[i]].fd == Prv(L, i);
  }

  lemma UnlinkedRing(V: Views, L: seq<int>, j: nat, V': Views)
    requires Ring(V, L) && Distinct(L) && Unlinked(V, L, j, V')
    ensures Ring(V', Without(L, j))
  {
    hide Unlinked;
    UnlinkedIndex(V, L, j, V');
    var M := Without(L, j);
    forall k | 0 <= k < |M| ensures M[k] in V' && V'[M[k]].bk == Nxt(M, k) && V'[M[k]].fd == Prv(M, k) {
      UnlinkedLinks(V, L, j, V', if k < j then k else k + 1);
    }
  }

  lemma UnlinkedIndex(V: Views, L: seq<int>, j: nat, V': Views)
    requires Unlinked(V, L, j, V')
    ensures j < |L| && |L| > 1
  {
  }

  /** Unlinking changes only fd and bk, and only inside the queue. */
  lemma UnlinkedFields(V: Views, L: seq<int>, j: nat, V': Views)
    requires Unlinked(V, L, j, V')
    ensures V'.Keys == V.Keys
    ensures forall p | p in V :: V'[p] == V[p].(fd := V'[p].fd, bk := V'[p].bk)
    ensures forall p | p in V && p !in L :: V'[p] == V[p]
  {
    assert Nxt(L, j) in L && Prv(L, j) in L;
  }

  lemma RemovedPlaces(C: map<int, int>, q: Fifo, s: nat, j: nat)
    requires Places(C, q) && s in q && j < |q[s]|
    ensures Places(C, Removed(q, s, j))
  {
    WithoutDistinct(q[s], j);
    forall t | t in Removed(q, s, j)
      ensures Distinct(Removed(q, s, j)[t])
      ensures forall k | 0 <= k < |Removed(q, s, j)[t]| ::
        Removed(q, s, j)[t][k] in C && C[Removed(q, s, j)[t][k]] == t && Removed(q, s, j)[t][k] >= HEAP_MIN
    {
      if t == s {
        forall k | 0 <= k < |Without(q[s], j)| ensures Without(q[s], j)[k] in q[s] {
        }
      }
    }
  }

  /** A chunk behind the tree node leaves without touching the tree. */
  lemma UnchainOk(V: Views, C: map<int, int>, f: Forest, q: Fifo, s: nat, j: nat, V': Views)
    requires Ok(f) && LinksOk(V, f, q) && Places(C, q) && s in f.nodes && 0 < j < |q[s]|
    requires Unlinked(V, q[s], j, V')
    ensures LinksOk(V', f, Removed(q, s, j))
  {
    hide Ok, Bin, NodeOk, NodeFields, Unlinked;
    var q' := Removed(q, s, j);
    forall t | t in f.nodes ensures NodeFields(V', f, q', t) {
      assert NodeFields(V, f, q, t);
      if t == s {
        UnchainOwn(V, C, f, q, s, j, V');
      } else {
        UnlinkedFields(V, q[s], j, V');
        NodeInViews(V, f, q, t);
        FieldsFrame(V, f, q, V', f, q', t);
      }
    }
  }

  lemma UnchainedStaysChained(V: Views, L: seq<int>, j: nat, V': Views, i: int)
    requires 0 < j < |L| && Chained(V, L, i) && Unlinked(V, L, j, V')
    ensures Chained(V', Without(L, j), i)
  {
    UnlinkedFields(V, L, j, V');
    var M := Without(L, j);
    forall k | 0 < k < |M|
      ensures M[k] in V' && V'[M[k]].left == 0 && V'[M[k]].right == 0 && V'[M[k]].parent == 0 && V'[M[k]].index == i
    {
      assert M[k] == L[if k < j then k else k + 1];
    }
  }

  lemma UnchainOwn(V: Views, C: map<int, int>, f: Forest, q: Fifo, s: nat, j: nat, V': Views)
    requires LinksOk(V, f, q) && Places(C, q) && s in f.nodes && 0 < j < |q[s]|
    requires Unlinked(V, q[s], j, V')
    ensures NodeFields(V', f, Removed(q, s, j), s)
  {
    hide Ok, Bin, Unlinked, Ring, Chained;
    assert NodeFields(V, f, q, s);
    UnlinkedRing(V, q[s], j, V');
    UnlinkedFields(V, q[s], j, V');
    UnchainedStaysChained(V, q[s], j, V', Bin(s));
    var q' := Removed(q, s, j);
    assert q'[s][0] == q[s][0];
    assert forall u :: NodeAt(q', u) == NodeAt(q, u);
  }

  /** Clearing the link that leads to the leaf of size s. */
  lemma CutLeafLinks(V: Views, C: map<int, int>, f: Forest, q: Fifo, s: nat, V': Views)
    requires Ok(f) && LinksOk(V, f, q) && Places(C, q) && IsLeaf(f, s)
    requires f.nodes[s].depth == 0 ==> V' == V
    requires f.nodes[s].depth > 0 ==>
      var P := NodeAt(q, f.nodes[s].parent);
      P in V && V' == V[P := V[P].SetKid(Turn(s, f.nodes[s].depth - 1), 0)]
    ensures LinksOk(V', CutLeaf(f, s), q - {s})
  {
    hide Bin, NodeFields, Turn;
    var f', q' := CutLeaf(f, s), q - {s};
    assert NodeOk(f, s);
    forall t | t in f'.nodes ensures NodeFields(V', f', q', t) {
      assert NodeFields(V, f, q, t);
      assert NodeOk(f, t);
      NodeInViews(V, f, q, t);
      if f.nodes[s].depth > 0 && t == f.nodes[s].parent {
        CutParentFields(V, f, q, s, V');
      } else {
        CutOther(f, s, t);
        if f.nodes[s].depth > 0 {
          assert NodeFields(V, f, q, f.nodes[s].parent);
          NodeInViews(V, f, q, f.nodes[s].parent);
          OtherNode(C, q, f.nodes[s].parent, t);
        }
        FieldsFrame(V, f, q, V', f', q', t);
      }
    }
  }

  /** Only its parent mentions a leaf. */
  lemma CutOther(f: Forest, s: nat, t: nat)
    requires Ok(f) && IsLeaf(f, s) && t in f.nodes && t != s && !(f.nodes[s].depth > 0 && t == f.nodes[s].parent)
    ensures f.nodes[t].left != s && f.nodes[t].right != s && (f.nodes[t].depth > 0 ==> f.nodes[t].parent != s)
    ensures t in CutLeaf(f, s).nodes && CutLeaf(f, s).nodes[t] == f.nodes[t]
  {
    hide Bin, Key, Turn;
    assert NodeOk(f, s) && NodeOk(f, t);
    assert KidOk(f, t, 0) && KidOk(f, t, 1);
  }

  lemma CutParentFields(V: Views, f: Forest, q: Fifo, s: nat, V': Views)
    requires Ok(f) && LinksOk(V, f, q) && IsLeaf(f, s) && f.nodes[s].depth > 0
    requires f.nodes[s].parent in q && Distinct(q[f.nodes[s].parent])
    requires var P := NodeAt(q, f.nodes[s].parent);
      P in V && V' == V[P := V[P].SetKid(Turn(s, f.nodes[s].depth - 1), 0)]
    ensures f.nodes[s].parent in CutLeaf(f, s).nodes && f.nodes[s].parent != s
    ensures NodeFields(V', CutLeaf(f, s), q - {s}, f.nodes[s].parent)
  {
    hide Bin, Key;
    var u := f.nodes[s].parent;
    assert NodeOk(f, s) && NodeOk(f, u);
    assert KidOk(f, u, 0) && KidOk(f, u, 1);
    assert NodeFields(V, f, q, u);
    NoZeroSize(f);
    RingFrame(V, V', q[u], q[u][0]);
    if f.nodes[u].depth > 0 { assert f.nodes[u].parent != s; }
    assert ParentAt(CutLeaf(f, s), q - {s}, u) == ParentAt(f, q, u);
  }

  // ---------------------------------------------------------------------------------------
  // Replacing a tree node

  /** The shape of g is that of f with size x renamed to r. */
  ghost predicate Renamed(f: Forest, x: nat, r: nat, g: Forest)
    requires x in f.nodes
  {
    && g.nodes.Keys == f.nodes.Keys - {x} + {r}
    && g.nodes[r] == f.nodes[x] && Bin(r) == Bin(x)
    && (forall t | t in f.nodes && t != x :: g.nodes[t] == RenamedNode(f.nodes[t], x, r))
  }

  function RenamedSize(u: nat, x: nat, r: nat): nat {
    if u == x then r else u
  }

  function RenamedNode(n: Node, x: nat, r: nat): Node {
    Node(n.depth, RenamedSize(n.parent, x, r), RenamedSize(n.left, x, r), RenamedSize(n.right, x, r))
  }

  lemma SubstitutedIsRenamed(f: Forest, x: nat, r: nat, g: Forest)
    requires Ok(f) && x in f.nodes && r !in f.nodes && Bin(r) == Bin(x) && Substituted(f, x, r, g)
    ensures Renamed(f, x, r, g)
  {
    hide Key, Bin;
    forall t | t in f.nodes && t != x ensures g.nodes[t] == RenamedNode(f.nodes[t], x, r) {
      assert g.nodes[t] == Moved(f, x, r, t);
      MovedIsRenamed(f, x, r, t);
    }
  }

  lemma MovedIsRenamed(f: Forest, x: nat, r: nat, t: nat)
    requires Ok(f) && x in f.nodes && t in f.nodes && t != x
    ensures Moved(f, x, r, t) == RenamedNode(f.nodes[t], x, r)
  {
    hide Key, Bin;
    var n, p := f.nodes[x], f.nodes[t];
    NodeSize(f, x);
    assert NodeOk(f, x) && NodeOk(f, t);
    assert KidOk(f, t, 0) && KidOk(f, t, 1);
    if n.depth > 0 { assert NodeOk(f, n.parent); assert KidOk(f, n.parent, 0) && KidOk(f, n.parent, 1); }
  }

  /** The node of size x, at X, is about to give its place to the ring L of size r; its tree fields
      still tell where that place is. */
  ghost predicate Vacant(V: Views, f: Forest, q: Fifo, x: nat, X: int, r: nat, L: seq<int>) {
    && x in f.nodes && q.Keys == f.nodes.Keys && NodeAt(q, x) == X && X in V
    && (r == x || r !in f.nodes)
    && (forall t {:trigger NodeFields(V, f, q, t)} | t in f.nodes && t != x :: NodeFields(V, f, q, t))
    && V[X].left == NodeAt(q, f.nodes[x].left) && V[X].right == NodeAt(q, f.nodes[x].right)
    && V[X].parent == ParentAt(f, q, x)
    && L != [] && L[0] in V && Ring(V, L) && Chained(V, L, Bin(r)) && V[L[0]].index == Bin(r) && Distinct(L)
    && V[L[0]].left == 0 && V[L[0]].right == 0
    && X !in L && (forall t | t in f.nodes && t != x :: forall p | p in L :: p !in q[t])
  }

  /** The updates that put R in the place of X: the parent's link, R's tree fields, the children's
      parent fields. */
  ghost predicate Replaced(V: Views, f: Forest, q: Fifo, x: nat, X: int, R: int, V': Views)
    requires x in f.nodes
  {
    && V'.Keys == V.Keys && X in V && R in V
    && var n := f.nodes[x];
       var P := NodeAt(q, n.parent);
       && V'[R] == V[R].(left := V[X].left, right := V[X].right, parent := V[X].parent)
       && (n.depth > 0 ==> P in V && V'[P] == V[P].SetKid(if V[P].left == X then 0 else 1, R))
       && (forall p | p in V && p != R && p != 0 && (p == V[X].left || p == V[X].right) :: V'[p] == V[p].(parent := R))
       && (forall p | p in V && p != R && (n.depth > 0 ==> p != P)
             && !(p != 0 && (p == V[X].left || p == V[X].right)) :: V'[p] == V[p])
  }

  function Renewed(q: Fifo, x: nat, r: nat, L: seq<int>): Fifo {
    (q - {x})[r := L]
  }

  lemma RenewedNodeAt(f: Forest, q: Fifo, x: nat, r: nat, L: seq<int>, u: nat)
    requires q.Keys == f.nodes.Keys && x in f.nodes && (r == x || r !in f.nodes) && L != []
    requires u in f.nodes || u == 0
    requires 0 !in f.nodes && r != 0
    ensures NodeAt(Renewed(q, x, r, L), RenamedSize(u, x, r)) == if u == x then L[0] else NodeAt(q, u)
  {
  }

  lemma ReplaceLinks(V: Views, C: map<int, int>, f: Forest, q: Fifo, x: nat, X: int, r: nat, L: seq<int>,
                     V': Views, g: Forest)
    requires Ok(f) && Places(C, q) && Vacant(V, f, q, x, X, r, L) && Replaced(V, f, q, x, X, L[0], V')
    requires Renamed(f, x, r, g) && r != 0 && 0 !in V
    ensures LinksOk(V', g, Renewed(q, x, r, L))
  {
    hide Ok, NodeFields, Bin, Replaced;
    var q' := Renewed(q, x, r, L);
    assert q.Keys == f.nodes.Keys && x in f.nodes;
    forall t | t in g.nodes ensures NodeFields(V', g, q', t) {
      if t == r {
        ReplacedNew(V, C, f, q, x, X, r, L, V', g);
      } else {
        ReplacedOther(V, C, f, q, x, X, r, L, V', g, t);
      }
    }
  }

  lemma KidsOf(f: Forest, t: nat)
    requires Ok(f) && t in f.nodes
    ensures 0 !in f.nodes && t != 0
    ensures var n := f.nodes[t];
      && (n.left != 0 ==> n.left in f.nodes && f.nodes[n.left].parent == t && f.nodes[n.left].depth > 0)
      && (n.right != 0 ==> n.right in f.nodes && f.nodes[n.right].parent == t && f.nodes[n.right].depth > 0)
      && (n.left != 0 ==> n.left != n.right)
      && (n.depth > 0 ==> n.parent in f.nodes && (f.nodes[n.parent].left == t || f.nodes[n.parent].right == t))
      && (n.depth == 0 ==> n.parent == 0)
      && n.left != t && n.right != t && n.parent != t
      && (n.left != 0 ==> n.left != n.parent) && (n.right != 0 ==> n.right != n.parent)
  {
    hide Bin, Key;
    NoZeroSize(f);
    assert NodeOk(f, t);
    var n := f.nodes[t];
    assert KidOk(f, t, 0) && KidOk(f, t, 1);
    if n.left != 0 { assert NodeOk(f, n.left); }
    if n.right != 0 { assert NodeOk(f, n.right); }
  }

  lemma ReplacedNew(V: Views, C: map<int, int>, f: Forest, q: Fifo, x: nat, X: int, r: nat, L: seq<int>,
                    V': Views, g: Forest)
    requires Ok(f) && Places(C, q) && Vacant(V, f, q, x, X, r, L) && Replaced(V, f, q, x, X, L[0], V')
    requires Renamed(f, x, r, g) && r != 0 && 0 !in V
    ensures NodeFields(V', g, Renewed(q, x, r, L), r)
  {
    hide Ok, Bin, Ring, Chained;
    var n := f.nodes[x];
    var q' := Renewed(q, x, r, L);
    KidsOf(f, x);
    RenewedNodeAt(f, q, x, r, L, n.left);
    RenewedNodeAt(f, q, x, r, L, n.right);
    RenewedNodeAt(f, q, x, r, L, n.parent);
    ReplacedRing(V, C, f, q, x, X, r, L, V');
  }

  lemma ReplacedRing(V: Views, C: map<int, int>, f: Forest, q: Fifo, x: nat, X: int, r: nat, L: seq<int>, V': Views)
    requires Ok(f) && Places(C, q) && Vacant(V, f, q, x, X, r, L) && Replaced(V, f, q, x, X, L[0], V') && 0 !in V
    ensures Ring(V', L) && Chained(V', L, Bin(r))
  {
    hide Ok, Bin;
    KidsOf(f, x);
    var n := f.nodes[x];
    forall k | 0 < k < |L| ensures V'[L[k]] == V[L[k]] {
      assert L[k] in L;
      if n.left != 0 { assert NodeFields(V, f, q, n.left); assert q[n.left][0] in q[n.left]; }
      if n.right != 0 { assert NodeFields(V, f, q, n.right); assert q[n.right][0] in q[n.right]; }
      if n.depth > 0 { assert NodeFields(V, f, q, n.parent); assert q[n.parent][0] in q[n.parent]; }
    }
  }

  lemma ReplacedOther(V: Views, C: map<int, int>, f: Forest, q: Fifo, x: nat, X: int, r: nat, L: seq<int>, V': Views,
                      g: Forest, t: nat)
    requires Ok(f) && Places(C, q) && Vacant(V, f, q, x, X, r, L) && Replaced(V, f, q, x, X, L[0], V')
    requires Renamed(f, x, r, g) && r != 0 && 0 !in V && t in f.nodes && t != x
    ensures NodeFields(V', g, Renewed(q, x, r, L), t)
  {
    hide Ok, Bin, Ring, Chained, Replaced;
    var n, m := f.nodes[x], f.nodes[t];
    var q' := Renewed(q, x, r, L);
    KidsOf(f, x);
    KidsOf(f, t);
    assert NodeFields(V, f, q, t);
    RenewedNodeAt(f, q, x, r, L, m.left);
    RenewedNodeAt(f, q, x, r, L, m.right);
    RenewedNodeAt(f, q, x, r, L, m.parent);
    assert g.nodes[t] == RenamedNode(m, x, r);
    ReplacedKeys(V, f, q, x, X, L[0], V');
    ReplacedChunks(V, C, f, q, x, X, r, L, V', t);
  }

  /** The neighbours of the place of X are other tree nodes, recognised by their size. */
  lemma PlaceOf(V: Views, C: map<int, int>, f: Forest, q: Fifo, x: nat, X: int, r: nat, L: seq<int>, u: nat)
    requires Places(C, q) && Vacant(V, f, q, x, X, r, L) && u in f.nodes && u != x
    ensures q[u] != [] && NodeAt(q, u) == q[u][0] && NodeAt(q, u) in C && C[NodeAt(q, u)] == u && NodeAt(q, u) != 0
  {
    hide Bin;
    assert NodeFields(V, f, q, u);
  }

  lemma ReplacedElsewhere(V: Views, C: map<int, int>, f: Forest, q: Fifo, x: nat, X: int, r: nat, L: seq<int>,
                          V': Views, t: nat, k: nat)
    requires Ok(f) && Places(C, q) && Vacant(V, f, q, x, X, r, L) && Replaced(V, f, q, x, X, L[0], V') && 0 !in V
    requires t in f.nodes && t != x && k < |q[t]| && q[t][k] in V
    ensures (k > 0 || (!(f.nodes[x].depth > 0 && t == f.nodes[x].parent) && f.nodes[t].parent != x)) ==>
      V'[q[t][k]] == V[q[t][k]]
  {
    hide Ok, Bin, NodeFields, Ring, Chained;
    KidsOf(f, x);
    var n, p := f.nodes[x], q[t][k];
    assert C[p] == t;
    assert L[0] in L;
    if n.left != 0 { PlaceOf(V, C, f, q, x, X, r, L, n.left); }
    if n.right != 0 { PlaceOf(V, C, f, q, x, X, r, L, n.right); }
    if n.depth > 0 { PlaceOf(V, C, f, q, x, X, r, L, n.parent); }
  }

  lemma ReplacedHead(V: Views, C: map<int, int>, f: Forest, q: Fifo, x: nat, X: int, r: nat, L: seq<int>,
                     V': Views, t: nat)
    requires Ok(f) && Places(C, q) && Vacant(V, f, q, x, X, r, L) && Replaced(V, f, q, x, X, L[0], V') && 0 !in V
    requires t in f.nodes && t != x && NodeFields(V, f, q, t)
    ensures var T, n := q[t][0], f.nodes[x];
      V'[T] == if n.depth > 0 && t == n.parent then V[T].SetKid(if V[T].left == X then 0 else 1, L[0])
               else if f.nodes[t].parent == x then V[T].(parent := L[0])
               else V[T]
  {
    hide Ok, Bin, Ring, Chained;
    var n := f.nodes[x];
    KidsOf(f, x);
    KidsOf(f, t);
    PlaceOf(V, C, f, q, x, X, r, L, t);
    assert L[0] in L;
    if n.depth > 0 && t == n.parent {
    } else if f.nodes[t].parent == x {
    } else {
      ReplacedElsewhere(V, C, f, q, x, X, r, L, V', t, 0);
    }
  }

  /** What replacing does to the chunks of another node's queue. */
  lemma ReplacedChunks(V: Views, C: map<int, int>, f: Forest, q: Fifo, x: nat, X: int, r: nat, L: seq<int>,
                       V': Views, t: nat)
    requires Ok(f) && Places(C, q) && Vacant(V, f, q, x, X, r, L) && Replaced(V, f, q, x, X, L[0], V') && 0 !in V
    requires t in f.nodes && t != x && NodeFields(V, f, q, t)
    ensures Ring(V', q[t]) && Chained(V', q[t], Bin(t))
    ensures var T, n := q[t][0], f.nodes[x];
      V'[T] == if n.depth > 0 && t == n.parent then V[T].SetKid(if V[T].left == X then 0 else 1, L[0])
               else if f.nodes[t].parent == x then V[T].(parent := L[0])
               else V[T]
  {
    hide Ok, Bin, Replaced;
    ReplacedHead(V, C, f, q, x, X, r, L, V', t);
    ReplacedKeys(V, f, q, x, X, L[0], V');
    forall k | 0 < k < |q[t]| ensures V'[q[t][k]] == V[q[t][k]] {
      ReplacedElsewhere(V, C, f, q, x, X, r, L, V', t, k);
    }
    RingFrame(V, V', q[t], q[t][0]);
  }

  lemma ReplacedKeys(V: Views, f: Forest, q: Fifo, x: nat, X: int, R: int, V': Views)
    requires x in f.nodes && Replaced(V, f, q, x, X, R, V')
    ensures V'.Keys == V.Keys
  {
  }
}
