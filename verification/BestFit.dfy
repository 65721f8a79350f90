/** Why walking one path of a trie finds the best fitting size (malloc.c, tmalloc_large and
    tmalloc_small).  The loops themselves are in TreeBins.dfy; here are the invariants they keep
    and one lemma for each of their steps, over sizes only. */
module BestFit {
  import opened Words
  import TreeIndex
  import opened Trie

  /** Every node outside the walk's remaining subtree is too small, or no better than the fit found
      so far (a remainder of rsize), or larger than the subtree's root, which will be looked at. */
  ghost predicate Walk(f: Forest, nb: nat, rsize: nat, t: nat) {
    && (forall s {:trigger NodeOk(f, s)} | s in f.nodes ::
          s < nb || s >= nb + rsize || (t != 0 && t in f.nodes && (Under(f, s, t) || t < s)))
    && (t != 0 ==> t in f.nodes && (rsize == 0 || forall s: nat | Under(f, s, t) :: s >= nb))
  }

  /** leftmost_child */
  function LeftmostKid(f: Forest, t: nat): nat
    requires t in f.nodes
  {
    if f.nodes[t].left != 0 then f.nodes[t].left else f.nodes[t].right
  }

  /** One step of the walk: once t itself has been looked at, its leftmost child is next. */
  lemma WalkStep(f: Forest, nb: nat, rsize: nat, t: nat)
    requires Ok(f) && t in f.nodes && t != 0 && Walk(f, nb, rsize, t)
    requires t < nb || t >= nb + rsize
    ensures Walk(f, nb, rsize, LeftmostKid(f, t))
    ensures LeftmostKid(f, t) != 0 ==> f.nodes[LeftmostKid(f, t)].depth == f.nodes[t].depth + 1
  {
    hide Key, Bin, Width, Agree, Turn, NodeOk;
    var k := LeftmostKid(f, t);
    if k != 0 { KidIsUnder(f, t, if f.nodes[t].left != 0 then 0 else 1); }
    forall s | s in f.nodes && !(s < nb) && !(s >= nb + rsize)
      ensures k != 0 && k in f.nodes && (Under(f, s, k) || k < s)
    {
      assert NodeOk(f, s);
      assert t >= nb by { UnderSelf(f, t); }
      assert Under(f, s, t) && s != t;
      WalkSplit(f, s, t);
    }
  }

  lemma UnderSelf(f: Forest, t: nat)
    requires t in f.nodes
    ensures Under(f, t, t)
  {
  }

  /** A proper descendant of t is under its leftmost child, or larger than that child. */
  lemma WalkSplit(f: Forest, s: nat, t: nat)
    requires Ok(f) && t in f.nodes && Under(f, s, t) && s != t
    ensures var k := LeftmostKid(f, t); k != 0 && k in f.nodes && (Under(f, s, k) || k < s)
  {
    hide Key, Bin;
    var d := f.nodes[t].depth;
    assert NodeOk(f, t) && NodeOk(f, s);
    if f.nodes[s].depth == d {
      OnePlace(f, s, t);
    } else {
      KidTowards(f, s, t);
      var k := LeftmostKid(f, t);
      if f.nodes[t].left != 0 && Turn(s, d) != 0 {
        KidIsUnder(f, t, 0);
        LeftIsSmaller(k, s, d);
      }
    }
  }

  // ---------------------------------------------------------------------------------------
  // The descent towards a node of exactly the requested size

  /** rst is a right subtree that the path of nb passed on its left: everything in it is larger
      than nb, and larger than everything further down that path. */
  predicate Passed(f: Forest, nb: nat, d: nat, rst: nat) {
    && rst in f.nodes
    && 0 < f.nodes[rst].depth <= d
    && Agree(rst, nb, f.nodes[rst].depth - 1)
    && Turn(rst, f.nodes[rst].depth - 1) == 1 && Turn(nb, f.nodes[rst].depth - 1) == 0
  }

  ghost predicate Descent(f: Forest, nb: nat, rsize: nat, t: nat, rst: nat) {
    && t in f.nodes && Agree(nb, t, f.nodes[t].depth)
    && (rst != 0 ==> Passed(f, nb, f.nodes[t].depth, rst))
    && (forall s {:trigger NodeOk(f, s)} | s in f.nodes && Bin(s) == Bin(nb) ::
          s < nb || s >= nb + rsize || Under(f, s, t) || (rst != 0 && rst in f.nodes && (Under(f, s, rst) || rst < s)))
  }

  /** What holds of the bin of nb when its descent has ended. */
  ghost predicate Landed(f: Forest, nb: nat, rsize: nat, t: nat) {
    && (forall s {:trigger NodeOk(f, s)} | s in f.nodes && Bin(s) == Bin(nb) ::
          s < nb || s >= nb + rsize || (t != 0 && t in f.nodes && (Under(f, s, t) || t < s)))
    && (t != 0 ==> t in f.nodes && Bin(t) == Bin(nb) && forall s: nat | Under(f, s, t) :: s >= nb)
  }

  lemma DescentStarts(f: Forest, nb: nat, rsize: nat)
    requires Ok(f) && LargeSize(nb) && f.roots[Bin(nb)] != 0
    ensures Descent(f, nb, rsize, f.roots[Bin(nb)], 0)
  {
    hide Key, Width;
    var r := f.roots[Bin(nb)];
    assert NodeOk(f, r);
    AgreeOnce(nb, r);
    forall s | s in f.nodes && Bin(s) == Bin(nb) ensures Under(f, s, r) {
      UnderRoot(f, s);
    }
  }

  /** Everything below the path point t is smaller than everything in a passed right subtree. */
  lemma PassedIsLarger(f: Forest, nb: nat, t: nat, rst: nat, x: nat, s: nat)
    requires Ok(f) && t in f.nodes && Agree(nb, t, f.nodes[t].depth) && Passed(f, nb, f.nodes[t].depth, rst)
    requires Under(f, x, t) && Under(f, s, rst)
    ensures x < s
  {
    hide Key, Bin;
    var e := f.nodes[rst].depth;
    assert NodeOk(f, x) && NodeOk(f, s) && NodeOk(f, t) && NodeOk(f, rst);
    AgreeLess(x, t, f.nodes[t].depth, e);
    AgreeLess(nb, t, f.nodes[t].depth, e);
    TurnAgrees(x, nb, e);
    TurnAgrees(s, rst, e);
    LeftIsSmaller(x, s, e - 1);
  }

  /** One step of the descent: rt is the right child, t' the child that the bits of nb choose. */
  lemma DescentStep(f: Forest, nb: nat, rsize: nat, t: nat, rst: nat)
    requires Ok(f) && LargeSize(nb) && Descent(f, nb, rsize, t, rst)
    requires t < nb || t >= nb + rsize
    ensures var rt := f.nodes[t].right;
      var t' := f.nodes[t].Kid(Turn(nb, f.nodes[t].depth));
      var rst' := if rt != 0 && rt != t' then rt else rst;
      if t' != 0 then Descent(f, nb, rsize, t', rst') && f.nodes[t'].depth == f.nodes[t].depth + 1
      else Landed(f, nb, rsize, rst')
  {
    hide Key, Bin;
    var d := f.nodes[t].depth;
    var b := Turn(nb, d);
    var rt, t' := f.nodes[t].right, f.nodes[t].Kid(b);
    var rst' := if rt != 0 && rt != t' then rt else rst;
    assert NodeOk(f, t);
    if t' != 0 {
      KidIsUnder(f, t, b);
      AgreeMore(nb, t', d);
    }
    if rst' != 0 { PassedNext(f, nb, t, rst); }
    forall s | s in f.nodes && Bin(s) == Bin(nb) && !(s < nb) && !(s >= nb + rsize)
      ensures (t' != 0 && Under(f, s, t')) || (rst' != 0 && rst' in f.nodes && (Under(f, s, rst') || rst' < s))
    {
      assert NodeOk(f, s);
      if Under(f, s, t) {
        DescentSplit(f, nb, s, t);
      } else {
        RestIsLarger(f, nb, rsize, t, rst, s);
      }
    }
    if t' == 0 && rst' != 0 {
      forall s: nat | Under(f, s, rst') ensures s >= nb {
        LargerThanPath(f, nb, d + 1, rst', s);
      }
    }
  }

  lemma LargerThanPath(f: Forest, nb: nat, d: nat, rst: nat, s: nat)
    requires Ok(f) && Passed(f, nb, d, rst) && Under(f, s, rst)
    ensures nb < s
  {
    hide Key, Bin;
    var e := f.nodes[rst].depth;
    assert NodeOk(f, s) && NodeOk(f, rst);
    TurnAgrees(s, rst, e);
    LeftIsSmaller(nb, s, e - 1);
  }

  lemma PassedNext(f: Forest, nb: nat, t: nat, rst: nat)
    requires Ok(f) && t in f.nodes && Agree(nb, t, f.nodes[t].depth)
    requires rst != 0 ==> Passed(f, nb, f.nodes[t].depth, rst)
    ensures var rt := f.nodes[t].right;
      var rst' := if rt != 0 && rt != f.nodes[t].Kid(Turn(nb, f.nodes[t].depth)) then rt else rst;
      rst' != 0 ==> Passed(f, nb, f.nodes[t].depth + 1, rst')
  {
    hide Key, Bin;
    assert NodeOk(f, t);
    if f.nodes[t].right != 0 { KidIsUnder(f, t, 1); }
  }

  /** A node below t that is not smaller than nb lies towards nb, or in the right subtree. */
  lemma DescentSplit(f: Forest, nb: nat, s: nat, t: nat)
    requires Ok(f) && t in f.nodes && Agree(nb, t, f.nodes[t].depth) && Under(f, s, t) && s != t && nb <= s
    ensures var d := f.nodes[t].depth;
      var t' := f.nodes[t].Kid(Turn(nb, d));
      (t' != 0 && t' in f.nodes && Under(f, s, t'))
      || (f.nodes[t].right != 0 && f.nodes[t].right != t' && f.nodes[t].right in f.nodes
         && Under(f, s, f.nodes[t].right))
  {
    hide Key, Bin;
    var d := f.nodes[t].depth;
    assert NodeOk(f, t) && NodeOk(f, s);
    if f.nodes[s].depth == d {
      OnePlace(f, s, t);
    } else {
      KidTowards(f, s, t);
      if Turn(s, d) != Turn(nb, d) {
        if Turn(s, d) == 0 { LeftIsSmaller(s, nb, d); }
        var t' := f.nodes[t].Kid(Turn(nb, d));
        if t' != 0 { KidIsUnder(f, t, Turn(nb, d)); KidIsUnder(f, t, 1); }
      }
    }
  }

  lemma RestIsLarger(f: Forest, nb: nat, rsize: nat, t: nat, rst: nat, s: nat)
    requires Ok(f) && Descent(f, nb, rsize, t, rst) && s in f.nodes && Bin(s) == Bin(nb)
    requires rst != 0 && (Under(f, s, rst) || rst < s)
    ensures var rt := f.nodes[t].right;
      var rst' := if rt != 0 && rt != f.nodes[t].Kid(Turn(nb, f.nodes[t].depth)) then rt else rst;
      rst' in f.nodes && (Under(f, s, rst') || rst' < s)
  {
    hide Key, Bin;
    var rt := f.nodes[t].right;
    if rt != 0 {
      KidIsUnder(f, t, 1);
      UnderSelf(f, rt);
      UnderSelf(f, rst);
      PassedIsLarger(f, nb, t, rst, rt, rst);
      if Under(f, s, rst) { PassedIsLarger(f, nb, t, rst, rt, s); }
    }
  }

  // ---------------------------------------------------------------------------------------
  // From one bin to all of them

  lemma BinsOrderSizes(s: nat, t: nat)
    requires LargeSize(s) && LargeSize(t) && Bin(s) < Bin(t)
    ensures s < t
  {
    hide TreeIndex.ComputeTreeIndex;
    if t <= s { TreeIndex.TreeIndexMonotone(t, s); }
  }

  lemma EmptyBinLanded(f: Forest, nb: nat, rsize: nat)
    requires Ok(f) && f.roots[Bin(nb)] == 0
    ensures Landed(f, nb, rsize, 0)
  {
    hide Key, Bin;
    forall s | s in f.nodes && Bin(s) == Bin(nb) ensures false {
      UnderRoot(f, s);
    }
  }

  /** If the bin of nb holds a candidate, no other bin needs to be looked at. */
  lemma LandedWalk(f: Forest, nb: nat, rsize: nat, t: nat, v: nat)
    requires Ok(f) && LargeSize(nb) && Landed(f, nb, rsize, t) && (t != 0 || v != 0)
    requires v != 0 ==> v in f.nodes && Bin(v) == Bin(nb) && v == nb + rsize
    requires v == 0 ==> rsize == WORD - nb
    ensures Walk(f, nb, rsize, t)
  {
    hide Key, Bin;
    forall s | s in f.nodes && !(s < nb) && !(s >= nb + rsize)
      ensures t != 0 && t in f.nodes && (Under(f, s, t) || t < s)
    {
      assert NodeOk(f, s);
      if Bin(s) != Bin(nb) {
        if Bin(s) < Bin(nb) { BinsOrderSizes(s, nb); }
        if v != 0 { assert NodeOk(f, v); BinsOrderSizes(v, s); }
        assert NodeOk(f, t);
        BinsOrderSizes(t, s);
      }
    }
  }

  /** Otherwise the least fit is in the next non-empty bin. */
  lemma NextBinWalk(f: Forest, nb: nat, i: TreeIndex.Bin)
    requires Ok(f) && LargeSize(nb) && Landed(f, nb, WORD - nb, 0)
    requires Bin(nb) < i && f.roots[i] != 0 && forall j | Bin(nb) < j < i :: f.roots[j] == 0
    ensures Walk(f, nb, WORD - nb, f.roots[i])
  {
    hide Key, Bin;
    var r := f.roots[i];
    assert NodeOk(f, r);
    forall s | s in f.nodes && !(s < nb) ensures Under(f, s, r) || r < s {
      assert NodeOk(f, s);
      UnderRoot(f, s);
      if Bin(s) < Bin(nb) { BinsOrderSizes(s, nb); }
      if i < Bin(s) { BinsOrderSizes(r, s); }
    }
    forall s: nat | Under(f, s, r) ensures s >= nb {
      assert NodeOk(f, s);
      BinsOrderSizes(nb, s);
    }
  }

  lemma NoBinWalk(f: Forest, nb: nat)
    requires Ok(f) && LargeSize(nb) && Landed(f, nb, WORD - nb, 0)
    requires forall j | Bin(nb) < j < TreeIndex.NTREEBINS :: f.roots[j] == 0
    ensures Walk(f, nb, WORD - nb, 0)
  {
    hide Key, Bin;
    forall s | s in f.nodes ensures s < nb {
      assert NodeOk(f, s);
      UnderRoot(f, s);
      if Bin(s) < Bin(nb) { BinsOrderSizes(s, nb); }
    }
  }

  /** For a request below every large size, the search starts at the first non-empty bin. */
  lemma FirstBinWalk(f: Forest, nb: nat, i: TreeIndex.Bin)
    requires Ok(f) && nb < TreeIndex.MIN_LARGE_SIZE && f.roots[i] != 0
    requires forall j | 0 <= j < i :: f.roots[j] == 0
    ensures f.roots[i] >= nb && Walk(f, nb, f.roots[i] - nb, f.roots[i])
  {
    hide Key, Bin;
    var r := f.roots[i];
    assert NodeOk(f, r);
    forall s | s in f.nodes ensures Under(f, s, r) || r < s {
      assert NodeOk(f, s);
      UnderRoot(f, s);
      if i < Bin(s) { BinsOrderSizes(r, s); }
    }
    forall s: nat | Under(f, s, r) ensures s >= nb {
      assert NodeOk(f, s);
    }
  }
}
