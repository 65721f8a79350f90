/** The order in which binned chunks are used again, over whole histories of binning and unbinning: of one
    large size the chunk that waited longest, of one small size the chunk that was freed last
    (malloc.c, "Overlaid data structures"). */
module ReuseOrder {
  import opened ChunkMemory
  import opened Lists
  import opened TreeLinks
  import AllBins
  import opened Chunks
  import opened HeapState
  import opened HeapBins
  import opened HeapModel
  import SmallBins
  import Trie

  datatype Step = Binned(p: int, s: nat) | Unbinned(p: int, s: nat)

  // ---------------------------------------------------------------------------------------
  // Histories, told without lists

  /** After n steps: the step that binned p as a chunk of size s, or -1 if p is not waiting. */
  function Since(run: seq<Step>, n: nat, p: int, s: nat): int
    requires n <= |run|
  {
    if n == 0 then -1
    else if run[n - 1] == Binned(p, s) then n - 1
    else if run[n - 1] == Unbinned(p, s) then -1
    else Since(run, n - 1, p, s)
  }

  predicate Waits(run: seq<Step>, n: nat, p: int, s: nat)
    requires n <= |run|
  {
    Since(run, n, p, s) >= 0
  }

  predicate ChunkSizes(s: nat) {
    SmallBins.SmallSize(s) || Trie.LargeSize(s)
  }

  /** Only chunks that wait nowhere are binned, and only waiting chunks are unbinned. */
  ghost predicate LegalStep(run: seq<Step>, n: nat)
    requires n < |run|
  {
    match run[n]
    case Binned(p, s) => ChunkSizes(s) && forall t: nat :: !Waits(run, n, p, t)
    case Unbinned(p, s) => ChunkSizes(s) && Waits(run, n, p, s)
  }

  ghost predicate Legal(run: seq<Step>) {
    forall n | 0 <= n < |run| :: LegalStep(run, n)
  }

  lemma {:induction false} SinceMeans(run: seq<Step>, n: nat, p: int, s: nat, i: nat)
    requires n <= |run|
    ensures Since(run, n, p, s) == i <==>
      && i < n && run[i] == Binned(p, s)
      && forall j | i < j < n :: run[j] != Binned(p, s) && run[j] != Unbinned(p, s)
  {
    if n > 0 { SinceMeans(run, n - 1, p, s, i); }
  }

  lemma {:induction false} SinceBefore(run: seq<Step>, n: nat, p: int, s: nat)
    requires n <= |run|
    ensures -1 <= Since(run, n, p, s) < n
  {
    if n > 0 { SinceBefore(run, n - 1, p, s); }
  }

  // ---------------------------------------------------------------------------------------
  // The lists of the bins after a history

  function AfterStep(l: Contents, step: Step): Contents {
    match step
    case Binned(p, s) => Put(l, p, s)
    case Unbinned(p, s) => Take(l, p, s)
  }

  function After(run: seq<Step>, n: nat): Contents
    requires n <= |run|
  {
    if n == 0 then Contents(seq(32, _ => []), map[]) else AfterStep(After(run, n - 1), run[n - 1])
  }

  /** The list that holds the chunks of size s, the oldest first. */
  function Waiting(l: Contents, s: nat): seq<int> {
    if s < 256 then Backwards(l.stacks[s / 8]) else Queue(l.fifo, s)
  }

  function Backwards(L: seq<int>): (r: seq<int>)
    ensures |r| == |L| && forall k | 0 <= k < |L| :: r[k] == L[|L| - 1 - k]
  {
    seq(|L|, k requires 0 <= k < |L| => L[|L| - 1 - k])
  }

  /** L holds the waiting chunks of size s, in the order in which they were binned. */
  ghost predicate Ordered(run: seq<Step>, n: nat, s: nat, L: seq<int>)
    requires n <= |run|
  {
    && (forall p :: p in L <==> Waits(run, n, p, s))
    && (forall j, k | 0 <= j < k < |L| :: Since(run, n, L[j], s) < Since(run, n, L[k], s))
  }

  /** One step, as one list sees it. */
  lemma OrderedAppend(run: seq<Step>, n: nat, s: nat, L: seq<int>, p: int)
    requires n < |run| && Ordered(run, n, s, L) && run[n] == Binned(p, s) && !Waits(run, n, p, s)
    ensures Ordered(run, n + 1, s, L + [p])
  {
    forall q ensures q in L + [p] <==> Waits(run, n + 1, q, s) {
      SinceBefore(run, n, q, s);
    }
    forall j, k | 0 <= j < k < |L| + 1
      ensures Since(run, n + 1, (L + [p])[j], s) < Since(run, n + 1, (L + [p])[k], s)
    {
      SinceBefore(run, n, L[j], s);
      assert L[j] in L;
      if k < |L| { assert L[k] in L; }
    }
  }

  lemma OrderedWithout(run: seq<Step>, n: nat, s: nat, L: seq<int>, i: nat)
    requires n < |run| && Ordered(run, n, s, L) && i < |L| && run[n] == Unbinned(L[i], s)
    ensures Ordered(run, n + 1, s, Without(L, i))
  {
    WithoutDistinct(L, i);
    var M := Without(L, i);
    forall j, k | 0 <= j < k < |M| ensures Since(run, n + 1, M[j], s) < Since(run, n + 1, M[k], s) {
      assert M[j] in M && M[k] in M;
    }
  }

  lemma OrderedElse(run: seq<Step>, n: nat, s: nat, L: seq<int>)
    requires n < |run| && Ordered(run, n, s, L) && run[n].s != s
    ensures Ordered(run, n + 1, s, L)
  {
  }

  lemma BackwardsMembers(L: seq<int>, p: int)
    ensures p in Backwards(L) <==> p in L
  {
    var r := Backwards(L);
    if p in L {
      var k :| 0 <= k < |L| && L[k] == p;
      assert r[|L| - 1 - k] == p;
    }
    if p in r {
      var k :| 0 <= k < |r| && r[k] == p;
      assert L[|L| - 1 - k] == p;
    }
  }

  /** Different small sizes have different bins. */
  lemma BinOfSize(s: nat)
    requires SmallBins.SmallSize(s)
    ensures s / 8 < 32 && s == 8 * (s / 8)
  {
  }

  lemma PutSmall(l: Contents, p: int, s: nat, t: nat)
    requires s < 256 && ChunkSizes(s) && ChunkSizes(t)
    ensures Waiting(Put(l, p, s), t) == if t == s then Waiting(l, s) + [p] else Waiting(l, t)
  {
    hide Backwards, ChunkSizes;
    BinOfSize(s) by { SmallOnly(s); }
    if t < 256 { BinOfSize(t) by { SmallOnly(t); } }
  }

  lemma SmallOnly(s: nat)
    requires ChunkSizes(s) && s < 256
    ensures SmallBins.SmallSize(s)
  {
  }

  /** What Put does to the list of a size. */
  lemma PutWaiting(l: Contents, p: int, s: nat, t: nat)
    requires ChunkSizes(s) && ChunkSizes(t)
    ensures Waiting(Put(l, p, s), t) == if t == s then Waiting(l, s) + [p] else Waiting(l, t)
  {
    hide Backwards, ChunkSizes;
    if s < 256 { PutSmall(l, p, s, t); }
  }

  lemma BackwardsTake(L: seq<int>, p: int) returns (i: nat)
    requires p in Backwards(L)
    ensures p in L && i < |L| && Backwards(L)[i] == p
      && Backwards(Without(L, IndexOf(L, p))) == Without(Backwards(L), i)
  {
    BackwardsMembers(L, p);
    i := |L| - 1 - IndexOf(L, p);
  }

  lemma TakeSmall(l: Contents, p: int, s: nat, t: nat) returns (i: nat)
    requires s < 256 && ChunkSizes(s) && ChunkSizes(t) && p in Waiting(l, s)
    ensures i < |Waiting(l, s)| && Waiting(l, s)[i] == p
    ensures Waiting(Take(l, p, s), t) == if t == s then Without(Waiting(l, s), i) else Waiting(l, t)
  {
    hide ChunkSizes, Backwards, Without, IndexOf;
    BinOfSize(s) by { SmallOnly(s); }
    if t < 256 { BinOfSize(t) by { SmallOnly(t); } }
    i := BackwardsTake(l.stacks[s / 8], p);
  }

  /** What Take does to the list of a size. */
  lemma TakeWaiting(l: Contents, p: int, s: nat, t: nat) returns (i: nat)
    requires ChunkSizes(s) && ChunkSizes(t) && p in Waiting(l, s)
    ensures i < |Waiting(l, s)| && Waiting(l, s)[i] == p
    ensures Waiting(Take(l, p, s), t) == if t == s then Without(Waiting(l, s), i) else Waiting(l, t)
  {
    hide Backwards, ChunkSizes;
    if s < 256 {
      i := TakeSmall(l, p, s, t);
    } else {
      i := IndexOf(l.fifo[s], p);
    }
  }

  /** In every history, the list of every size holds the chunks that wait, and they are in the order in
      which they were binned: the queues of the tree bins from the front, smallbins from the back. */
  lemma {:induction false} InOrder(run: seq<Step>, n: nat, s: nat)
    requires Legal(run) && n <= |run| && ChunkSizes(s)
    ensures Ordered(run, n, s, Waiting(After(run, n), s))
  {
    hide Put, Take;
    if n == 0 {
    } else {
      var step, l := run[n - 1], After(run, n - 1);
      InOrder(run, n - 1, s);
      assert LegalStep(run, n - 1);
      match step
      case Binned(p, t) =>
        PutWaiting(l, p, t, s);
        if t == s {
          OrderedAppend(run, n - 1, s, Waiting(l, s), p);
        } else {
          OrderedElse(run, n - 1, s, Waiting(l, s));
        }
      case Unbinned(p, t) =>
        InOrder(run, n - 1, t);
        var i := TakeWaiting(l, p, t, s);
        if t == s {
          OrderedWithout(run, n - 1, s, Waiting(l, s), i);
        } else {
          OrderedElse(run, n - 1, s, Waiting(l, s));
        }
    }
  }

  // ---------------------------------------------------------------------------------------
  // Histories of real bins

  /** The lists are what the history made them. */
  ghost predicate Recorded(run: seq<Step>, l: Contents) {
    Legal(run) && After(run, |run|) == l
  }

  lemma NothingRecorded()
    ensures Recorded([], Contents(seq(32, _ => []), map[]))
  {
  }

  lemma {:induction false} SincePrefix(run: seq<Step>, step: Step, n: nat, p: int, s: nat)
    requires n <= |run|
    ensures Since(run + [step], n, p, s) == Since(run, n, p, s)
  {
    if n > 0 { SincePrefix(run, step, n - 1, p, s); }
  }

  lemma {:induction false} AfterPrefix(run: seq<Step>, step: Step, n: nat)
    requires n <= |run|
    ensures After(run + [step], n) == After(run, n)
  {
    if n > 0 { AfterPrefix(run, step, n - 1); }
  }

  lemma LongerRecord(run: seq<Step>, l: Contents, step: Step)
    requires Recorded(run, l) && ChunkSizes(step.s)
    requires match step case Binned(p, _) => (forall t: nat :: !Waits(run, |run|, p, t))
                        case Unbinned(p, s) => Waits(run, |run|, p, s)
    ensures Recorded(run + [step], AfterStep(l, step))
  {
    hide Since, ChunkSizes, Put, Take;
    var longer := run + [step];
    forall n | 0 <= n < |longer| ensures LegalStep(longer, n) {
      forall p, t: nat ensures Waits(longer, n, p, t) == Waits(run, n, p, t) { SincePrefix(run, step, n, p, t); }
      if n < |run| { assert LegalStep(run, n); }
    }
    AfterPrefix(run, step, |run|);
  }

  /** What waits is listed under its size. */
  lemma WaitingMeans(run: seq<Step>, l: Contents, p: int, s: nat)
    requires Recorded(run, l)
    ensures Waits(run, |run|, p, s) <==> ChunkSizes(s) && p in Waiting(l, s)
  {
    hide After, Waiting, ChunkSizes;
    if ChunkSizes(s) {
      InOrder(run, |run|, s);
    } else if Waits(run, |run|, p, s) {
      SinceMeans(run, |run|, p, s, Since(run, |run|, p, s));
      StepSizes(run, Since(run, |run|, p, s));
    }
  }

  lemma StepSizes(run: seq<Step>, i: int)
    requires Legal(run) && 0 <= i < |run|
    ensures ChunkSizes(run[i].s)
  {
    assert LegalStep(run, i);
  }

  /** A chunk that may be binned waits nowhere: binning it is a step that a history may take. */
  lemma RecordPut(m: Mem, b: AllBins.BinState, h: Shape, leastAddr: int, run: seq<Step>, p: int, s: nat)
    requires Core(m, b, h, leastAddr) && Recorded(run, ContentsOf(b)) && Binnable(b, h, p) && p in h.C && s == h.C[p]
    ensures Recorded(run + [Binned(p, s)], Put(ContentsOf(b), p, s))
  {
    hide Core, Recorded, Put, Waiting;
    SmallBinnable(m, b, h, leastAddr, p);
    forall t: nat ensures !Waits(run, |run|, p, t) {
      WaitingMeans(run, ContentsOf(b), p, t);
      if ChunkSizes(t) && p in Waiting(ContentsOf(b), t) { ListedBinned(b, p, t); }
    }
    assert ChunkSizes(s);
    LongerRecord(run, ContentsOf(b), Binned(p, s));
  }

  lemma ListedBinned(b: AllBins.BinState, p: int, t: nat)
    requires ChunkSizes(t) && p in Waiting(ContentsOf(b), t)
    ensures p in AllBins.Binned(b)
  {
    hide Backwards;
    InSmall(b.stacks, p);
    InLarge(b.fifo, p);
    if t < 256 { BackwardsMembers(b.stacks[t / 8], p); }
  }

  /** Unbinning a chunk is a step that a history may take. */
  lemma RecordTake(b: AllBins.BinState, run: seq<Step>, p: int, s: nat)
    requires Recorded(run, ContentsOf(b)) && ChunkSizes(s)
    requires if s < 256 then p in b.stacks[s / 8] else p in Queue(b.fifo, s)
    ensures Recorded(run + [Unbinned(p, s)], Take(ContentsOf(b), p, s))
  {
    hide Recorded, Take, Backwards;
    if s < 256 { BackwardsMembers(b.stacks[s / 8], p); }
    WaitingMeans(run, ContentsOf(b), p, s);
    LongerRecord(run, ContentsOf(b), Unbinned(p, s));
  }

  // ---------------------------------------------------------------------------------------
  // What malloc uses

  /** The waiting chunk of size s that was binned first. */
  ghost predicate Oldest(run: seq<Step>, p: int, s: nat) {
    Waits(run, |run|, p, s) && forall q | Waits(run, |run|, q, s) :: Since(run, |run|, p, s) <= Since(run, |run|, q, s)
  }

  /** The waiting chunk of size s that was binned last. */
  ghost predicate Youngest(run: seq<Step>, p: int, s: nat) {
    Waits(run, |run|, p, s) && forall q | Waits(run, |run|, q, s) :: Since(run, |run|, q, s) <= Since(run, |run|, p, s)
  }

  lemma FirstOldest(run: seq<Step>, s: nat, L: seq<int>)
    requires Ordered(run, |run|, s, L) && L != []
    ensures Oldest(run, L[0], s)
  {
    assert L[0] in L;
    forall q | Waits(run, |run|, q, s) ensures Since(run, |run|, L[0], s) <= Since(run, |run|, q, s) {
      var k :| 0 <= k < |L| && L[k] == q;
    }
  }

  lemma LastYoungest(run: seq<Step>, s: nat, L: seq<int>)
    requires Ordered(run, |run|, s, L) && L != []
    ensures Youngest(run, L[|L| - 1], s)
  {
    assert L[|L| - 1] in L;
    forall q | Waits(run, |run|, q, s) ensures Since(run, |run|, q, s) <= Since(run, |run|, L[|L| - 1], s) {
      var k :| 0 <= k < |L| && L[k] == q;
    }
  }

  /** The bins hold chunks of their sizes only. */
  lemma {:induction false} ListedSizes(run: seq<Step>, n: nat)
    requires Legal(run) && n <= |run|
    ensures forall s | s in After(run, n).fifo :: Trie.LargeSize(s)
    ensures forall i: nat | i < 32 && After(run, n).stacks[i] != [] :: SmallBins.SmallSize(8 * i)
  {
    hide Without, IndexOf;
    if n > 0 {
      ListedSizes(run, n - 1);
      assert LegalStep(run, n - 1);
      var l, l' := After(run, n - 1), After(run, n);
      StepSizesListed(l, run[n - 1]);
      assert l' == AfterStep(l, run[n - 1]);
    }
  }

  lemma StepSizesListed(l: Contents, step: Step)
    requires ChunkSizes(step.s)
    requires forall s | s in l.fifo :: Trie.LargeSize(s)
    requires forall i: nat | i < 32 && l.stacks[i] != [] :: SmallBins.SmallSize(8 * i)
    ensures forall s | s in AfterStep(l, step).fifo :: Trie.LargeSize(s)
    ensures forall i: nat | i < 32 && AfterStep(l, step).stacks[i] != [] :: SmallBins.SmallSize(8 * i)
  {
    hide Without, IndexOf;
    if step.s < 256 { BinOfSize(step.s); }
  }

  /** A request that a tree serves gets, of the waiting chunks of the least sufficient size, the oldest. */
  lemma TreeServesOldest(run: seq<Step>, w: Model, nb: nat, s: nat)
    requires Recorded(run, w.l) && LeastTree(w, nb, s)
    ensures Oldest(run, w.l.fifo[s][0], s)
    ensures forall q, t: nat | 256 <= t && nb <= t && Waits(run, |run|, q, t) :: s <= t
  {
    hide Ordered, Oldest, After, Waits;
    ListedSizes(run, |run|);
    InOrder(run, |run|, s);
    FirstOldest(run, s, Waiting(w.l, s));
    forall q, t: nat | 256 <= t && nb <= t && Waits(run, |run|, q, t) ensures s <= t {
      WaitingMeans(run, w.l, q, t);
    }
  }

  /** A request that a smallbin serves gets, of the waiting chunks of the least sufficient size, the youngest. */
  lemma SmallbinServesYoungest(run: seq<Step>, w: Model, nb: nat, i: nat)
    requires Recorded(run, w.l) && LeastBin(w, nb, i)
    ensures Youngest(run, w.l.stacks[i][0], 8 * i)
    ensures forall q, t: nat | t < 256 && nb <= t && Waits(run, |run|, q, t) :: 8 * i <= t
  {
    hide Ordered, Youngest, Waits, After, Legal, LegalStep;
    ListedSizes(run, |run|);
    InOrder(run, |run|, 8 * i);
    LastYoungest(run, 8 * i, Waiting(w.l, 8 * i));
    forall q, t: nat | t < 256 && nb <= t && Waits(run, |run|, q, t) ensures 8 * i <= t {
      WaitingMeans(run, w.l, q, t);
      SmallOnly(t);
      BinOfSize(t);
    }
  }

  /** p waits as a chunk of s bytes, is the one whose turn it is, and no smaller waiting chunk of its kind, small or
      large, would do. */
  ghost predicate InTurn(run: seq<Step>, nb: nat, p: int, s: nat) {
    && nb <= s && (if s < 256 then Youngest(run, p, s) else Oldest(run, p, s))
    && forall q, t: nat | nb <= t && (t < 256 <==> s < 256) && Waits(run, |run|, q, t) :: s <= t
  }

  ghost predicate IsInTurn(run: seq<Step>, nb: nat, p: int) {
    exists s: nat :: InTurn(run, nb, p, s)
  }

  /** malloc, whatever was binned and unbinned before: a binned chunk is used in its turn. */
  lemma SmallInTurn(run: seq<Step>, w: Model, nb: nat, w': Model, p: int)
    requires Recorded(run, w.l) && nb < 256 && 0 <= w.k.dvsize && ServesSmall(w, nb, w', p)
    ensures ServesOtherwise(w, nb, w', p) || IsInTurn(run, nb, p)
  {
    hide Recorded, Oldest, Youngest, UseBinned, ServesOtherwise, Waits;
    if i: nat :| LeastBin(w, nb, i) && p == w.l.stacks[i][0] {
      SmallbinServesYoungest(run, w, nb, i);
      assert InTurn(run, nb, p, 8 * i);
    } else if s: nat :| LeastTree(w, nb, s) && p == w.l.fifo[s][0] {
      TreeServesOldest(run, w, nb, s);
      TreeSize(run, w, s);
      assert InTurn(run, nb, p, s);
    }
  }

  lemma LargeInTurn(run: seq<Step>, w: Model, nb: nat, w': Model, p: int)
    requires Recorded(run, w.l) && 0 <= w.k.dvsize && ServesLarge(w, nb, w', p)
    ensures ServesOtherwise(w, nb, w', p) || IsInTurn(run, nb, p)
  {
    hide Recorded, Oldest, Youngest, UseBinned, ServesOtherwise, Waits;
    if s: nat :| LeastTree(w, nb, s) && p == w.l.fifo[s][0] {
      TreeServesOldest(run, w, nb, s);
      TreeSize(run, w, s);
      assert InTurn(run, nb, p, s);
    }
  }

  lemma TreeSize(run: seq<Step>, w: Model, s: nat)
    requires Recorded(run, w.l) && s in w.l.fifo
    ensures s >= 256
  {
    ListedSizes(run, |run|);
  }
}
