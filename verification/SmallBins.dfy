/** The smallbins of malloc_state: circular lists through a header (malloc.c, "Operations on
    smallbins").  The header of bin i is treated as a chunk whose fd and bk words are the pair
    of malloc_state words for that bin. */
module SmallBins {
  import opened BinMap
  import opened ChunkMemory
  import opened Lists
  import opened TreeState

  type Stacks = s: seq<seq<int>> | |s| == 32 witness seq(32, _ => [])

  /** smallbin_at */
  function BinHeader(i: Index): (b: int)
    ensures SMALLBINS <= b < SMALLBINS + 512
  {
    SMALLBINS + 16 * i
  }

  /** small_index, small_index2size */
  function SmallIndex(s: nat): nat {
    s / 8
  }

  predicate SmallSize(s: int) {
    32 <= s < 256 && s % 16 == 0
  }

  // ---------------------------------------------------------------------------------------
  // Rings through a header

  datatype Pair = Pair(fd: int, bk: int)

  type Pairs = map<int, Pair>

  /** Bin headers, and the chunks that are large enough to be free. */
  ghost function Linkable(C: map<int, int>): set<int> {
    (set i: Index :: BinHeader(i)) + (set p | p in C && C[p] >= 32)
  }

  ghost predicate Spread(ps: set<int>) {
    forall p, q | p in ps && q in ps && p < q :: p + 16 <= q
  }

  ghost function PairsOf(m: Mem, ps: set<int>): (v: Pairs)
    ensures v.Keys == ps
  {
    map p | p in ps :: if p in ps then Pair(Rd(m, p + 16), Rd(m, p + 24)) else Pair(0, 0)
  }

  /** The nodes of N form a ring: fd leads from each to the next, bk back. */
  ghost predicate Circle(V: Pairs, N: seq<int>) {
    forall k | 0 <= k < |N| :: N[k] in V && V[N[k]] == Pair(Nxt(N, k), Prv(N, k))
  }

  /** smallmap marks the non-empty bins; the links of a bin mean something only while it is marked. */
  ghost predicate BinsOk(V: Pairs, smallmap: bv32, S: Stacks) {
    forall i: Index ::
      && (Marked(smallmap, i) <==> S[i] != [])
      && (S[i] != [] ==> Circle(V, [BinHeader(i)] + S[i]))
  }

  /** Every chunk of a bin has the bin's size. */
  ghost predicate Placed(C: map<int, int>, L: seq<int>, i: Index) {
    Distinct(L) && forall k | 0 <= k < |L| :: L[k] in C && C[L[k]] == 8 * i && SmallSize(8 * i) && L[k] >= HEAP_MIN
  }

  ghost predicate StacksPlaced(C: map<int, int>, S: Stacks) {
    forall i: Index :: Placed(C, S[i], i)
  }

  ghost predicate SmallsOk(m: Mem, smallmap: bv32, C: map<int, int>, S: Stacks) {
    && Apart(C) && StacksPlaced(C, S)
    && BinsOk(PairsOf(m, Linkable(C)), smallmap, S)
  }

  ghost function SmallMembers(S: Stacks): set<int> {
    set i: Index, k | 0 <= k < |S[i]| :: S[i][k]
  }

  ghost predicate SmallReachable(S: Stacks, leastAddr: int) {
    forall i: Index :: forall k | 0 <= k < |S[i]| :: leastAddr <= S[i][k]
  }

  // ---------------------------------------------------------------------------------------
  // What linking and unlinking do to a ring

  /** Linking p between the header b and its successor F. */
  lemma CirclePush(V: Pairs, b: int, L: seq<int>, p: int, V': Pairs)
    requires p !in L && p != b && p in V && b in V && Distinct([b] + L)
    requires L != [] ==> Circle(V, [b] + L)
    requires var F := if L == [] then b else L[0];
      && F in V
      && var W := V[b := V[b].(fd := p)];
         V' == W[F := W[F].(bk := p)][p := Pair(F, b)]
    ensures Circle(V', [b] + ([p] + L))
  {
    var N, M := [b] + L, [b] + ([p] + L);
    forall k | 0 <= k < |M| ensures M[k] in V' && V'[M[k]] == Pair(Nxt(M, k), Prv(M, k)) {
      if L == [] {
      } else if k == 0 {
        assert V[N[0]] == Pair(Nxt(N, 0), Prv(N, 0));
        assert M[|M| - 1] == N[|N| - 1];
      } else if k >= 2 {
        assert M[k] == N[k - 1] && V[N[k - 1]] == Pair(Nxt(N, k - 1), Prv(N, k - 1));
        assert k > 2 ==> M[k - 1] == N[k - 2] && N[k - 1] != N[1];
      }
    }
  }

  /** The updates that join the neighbours of N[i]. */
  ghost predicate Joined(V: Pairs, N: seq<int>, i: nat, V': Pairs) {
    && i < |N| && Nxt(N, i) in V && Prv(N, i) in V
    && var F, B := Nxt(N, i), Prv(N, i);
       var W := V[F := V[F].(bk := B)];
       V' == W[B := W[B].(fd := F)]
  }

  lemma JoinedOther(V: Pairs, N: seq<int>, i: nat, V': Pairs, k: nat)
    requires Circle(V, N) && Distinct(N) && 2 < |N| && Joined(V, N, i, V') && k < |N| && k != i
    ensures N[k] in V'
    ensures V'[N[k]].fd == if Nxt(N, k) == N[i] then Nxt(N, i) else Nxt(N, k)
    ensures V'[N[k]].bk == if Prv(N, k) == N[i] then Prv(N, i) else Prv(N, k)
  {
    var n, p := if i + 1 < |N| then i + 1 else 0, if i > 0 then i - 1 else |N| - 1;
    assert N[n] == Nxt(N, i) && N[p] == Prv(N, i);
    assert V[N[k]] == Pair(Nxt(N, k), Prv(N, k));
    assert V[N[n]] == Pair(Nxt(N, n), N[i]);
    assert V[N[p]] == Pair(N[i], Prv(N, p));
  }

  lemma NeighboursWithout(N: seq<int>, i: nat, k: nat)
    requires Distinct(N) && 2 < |N| && 0 < i < |N| && k < |N| - 1
    ensures var M := Without(N, i); var h := if k < i then k else k + 1;
      && M[k] == N[h] && h != i
      && Nxt(M, k) == (if Nxt(N, h) == N[i] then Nxt(N, i) else Nxt(N, h))
      && Prv(M, k) == (if Prv(N, h) == N[i] then Prv(N, i) else Prv(N, h))
  {
  }

  /** Joining the neighbours of a chunk takes it out of its ring. */
  lemma CircleDrop(V: Pairs, N: seq<int>, i: nat, V': Pairs)
    requires 0 < i < |N| && 2 < |N| && Circle(V, N) && Distinct(N) && Joined(V, N, i, V')
    ensures Circle(V', Without(N, i))
  {
    hide Joined;
    var M := Without(N, i);
    forall k | 0 <= k < |M| ensures M[k] in V' && V'[M[k]] == Pair(Nxt(M, k), Prv(M, k)) {
      NeighboursWithout(N, i, k);
      JoinedOther(V, N, i, V', if k < i then k else k + 1);
    }
  }

  // ---------------------------------------------------------------------------------------
  // The bins as a whole

  const SMALL_END: int := SMALLBINS + 0x400

  /** A bin none of whose nodes was written keeps its ring. */
  lemma OtherBin(V: Pairs, V': Pairs, C: map<int, int>, S: Stacks, i: Index, j: Index)
    requires StacksPlaced(C, S) && i != j && Circle(V, [BinHeader(j)] + S[j])
    requires forall p | p in V && p != BinHeader(i) && !(p in C && C[p] == 8 * i) :: p in V' && V'[p] == V[p]
    requires Apart(C)
    ensures Circle(V', [BinHeader(j)] + S[j])
  {
    var N := [BinHeader(j)] + S[j];
    forall k | 0 <= k < |N| ensures N[k] in V && N[k] in V' && V'[N[k]] == V[N[k]] {
      if k > 0 {
        assert N[k] == S[j][k - 1];
      }
    }
  }

  lemma NodesSeparate(C: map<int, int>, S: Stacks, i: Index)
    requires StacksPlaced(C, S)
    ensures Distinct([BinHeader(i)] + S[i]) && BinHeader(i) !in S[i]
  {
    var N := [BinHeader(i)] + S[i];
    forall j, k | 0 <= j < k < |N| ensures N[j] != N[k] {
      assert N[k] == S[i][k - 1];
      if j > 0 { assert N[j] == S[i][j - 1]; }
    }
  }

  /** p joins the front of bin i. */
  lemma PushedBins(V: Pairs, smallmap: bv32, C: map<int, int>, S: Stacks, i: Index, p: int, V': Pairs)
    requires Apart(C) && StacksPlaced(C, S) && BinsOk(V, smallmap, S) && V.Keys == Linkable(C)
    requires p in C && C[p] == 8 * i && SmallSize(8 * i) && p !in S[i] && p >= HEAP_MIN
    requires var b := BinHeader(i);
      var F := if S[i] == [] then b else S[i][0];
      && F in V && b in V && p in V
      && var W := V[b := V[b].(fd := p)];
         V' == W[F := W[F].(bk := p)][p := Pair(F, b)]
    ensures BinsOk(V', Mark(smallmap, i), S[i := [p] + S[i]])
    ensures StacksPlaced(C, S[i := [p] + S[i]])
  {
    hide Mark, Marked;
    NodesSeparate(C, S, i);
    CirclePush(V, BinHeader(i), S[i], p, V');
    var S' := S[i := [p] + S[i]];
    forall j: Index
      ensures Marked(Mark(smallmap, i), j) <==> S'[j] != []
      ensures S'[j] != [] ==> Circle(V', [BinHeader(j)] + S'[j])
    {
      MarkSets(smallmap, i, j);
      if j != i && S[j] != [] { OtherBin(V, V', C, S, i, j); }
    }
  }

  lemma MarkTwice(m: bv32, i: Index)
    requires Marked(m, i)
    ensures forall j: Index :: Marked(Mark(m, i), j) <==> Marked(m, j)
  {
    hide Mark, Marked;
    forall j: Index ensures Marked(Mark(m, i), j) <==> Marked(m, j) {
      MarkSets(m, i, j);
    }
  }

  lemma LessPlaced(C: map<int, int>, L: seq<int>, i: Index, j: nat)
    requires Placed(C, L, i) && j < |L|
    ensures Placed(C, Without(L, j), i)
  {
    WithoutDistinct(L, j);
  }

  lemma WithoutPlaced(C: map<int, int>, S: Stacks, i: Index, j: nat)
    requires StacksPlaced(C, S) && j < |S[i]|
    ensures StacksPlaced(C, S[i := Without(S[i], j)])
  {
    var S' := S[i := Without(S[i], j)];
    forall x: Index ensures Placed(C, S'[x], x) {
      assert Placed(C, S[x], x);
      if x == i { LessPlaced(C, S[i], i, j); }
    }
  }

  /** The chunk at position j leaves bin i, which keeps other chunks. */
  lemma DroppedBins(V: Pairs, smallmap: bv32, C: map<int, int>, S: Stacks, i: Index, j: nat, V': Pairs)
    requires Apart(C) && StacksPlaced(C, S) && BinsOk(V, smallmap, S) && j < |S[i]| && |S[i]| > 1
    requires Joined(V, [BinHeader(i)] + S[i], j + 1, V')
    ensures BinsOk(V', smallmap, S[i := Without(S[i], j)])
  {
    hide Marked, Joined, Circle, StacksPlaced, Apart;
    NodesSeparate(C, S, i);
    var N := [BinHeader(i)] + S[i];
    CircleDrop(V, N, j + 1, V');
    assert Without(N, j + 1) == [BinHeader(i)] + Without(S[i], j);
    var S' := S[i := Without(S[i], j)];
    assert |Without(S[i], j)| > 0;
    JoinedInside(V, C, S, i, j, V');
    forall k: Index
      ensures Marked(smallmap, k) <==> S'[k] != []
      ensures S'[k] != [] ==> Circle(V', [BinHeader(k)] + S'[k])
    {
      if k != i && S[k] != [] {
        OtherBin(V, V', C, S, i, k);
      }
    }
  }

  lemma JoinedInside(V: Pairs, C: map<int, int>, S: Stacks, i: Index, j: nat, V': Pairs)
    requires StacksPlaced(C, S) && j < |S[i]| && Joined(V, [BinHeader(i)] + S[i], j + 1, V')
    ensures forall p | p in V && p != BinHeader(i) && !(p in C && C[p] == 8 * i) :: p in V' && V'[p] == V[p]
  {
    var N := [BinHeader(i)] + S[i];
    assert forall k | 0 < k < |N| :: N[k] == S[i][k - 1];
  }

  /** The last chunk leaves bin i: its mark goes, its links stay as they were. */
  lemma EmptiedBins(V: Pairs, smallmap: bv32, S: Stacks, i: Index)
    requires BinsOk(V, smallmap, S) && |S[i]| == 1
    ensures BinsOk(V, Clear(smallmap, i), S[i := Without(S[i], 0)])
  {
    hide Clear, Marked;
    forall j: Index
      ensures Marked(Clear(smallmap, i), j) <==> S[i := Without(S[i], 0)][j] != []
    {
      ClearResets(smallmap, i, j);
    }
  }

  /** What memory holds for the chunk at position j of bin i. */
  lemma BinNode(m: Mem, smallmap: bv32, C: map<int, int>, S: Stacks, i: Index, j: nat, leastAddr: int)
    requires SmallsOk(m, smallmap, C, S) && j < |S[i]| && SmallReachable(S, leastAddr)
    ensures var p, N := S[i][j], [BinHeader(i)] + S[i];
      var F, B := Nxt(N, j + 1), Prv(N, j + 1);
      && Rd(m, p + 16) == F && Rd(m, p + 24) == B && Rd(m, F + 24) == p && Rd(m, B + 16) == p
      && (F == BinHeader(i) || (F >= leastAddr && F in C)) && (B == BinHeader(i) || (B >= leastAddr && B in C))
      && F in Linkable(C) && B in Linkable(C) && p in Linkable(C)
      && (F == B <==> |S[i]| == 1) && (j == 0 ==> B == BinHeader(i))
      && (F == BinHeader(i) || F in SmallMembers(S)) && (B == BinHeader(i) || B in SmallMembers(S))
  {
    hide Marked, Linkable, PairsOf, Circle, Apart;
    var N := [BinHeader(i)] + S[i];
    NodesSeparate(C, S, i);
    assert N[j + 1] == S[i][j];
    NodePairs(m, C, N, j + 1);
    NodePlaces(C, S, i, j, leastAddr);
  }

  lemma NodePlaces(C: map<int, int>, S: Stacks, i: Index, j: nat, leastAddr: int)
    requires StacksPlaced(C, S) && j < |S[i]| && SmallReachable(S, leastAddr)
    requires Distinct([BinHeader(i)] + S[i])
    ensures var N := [BinHeader(i)] + S[i];
      var F, B := Nxt(N, j + 1), Prv(N, j + 1);
      && (F == BinHeader(i) || (F >= leastAddr && F in C && F in SmallMembers(S)))
      && (B == BinHeader(i) || (B >= leastAddr && B in C && B in SmallMembers(S)))
      && (F == B <==> |S[i]| == 1) && (j == 0 ==> B == BinHeader(i))
  {
    var N := [BinHeader(i)] + S[i];
    if j + 2 < |N| { assert Nxt(N, j + 1) == S[i][j + 1]; }
    if j > 0 { assert Prv(N, j + 1) == S[i][j - 1]; }
  }

  lemma NodePairs(m: Mem, C: map<int, int>, N: seq<int>, k: nat)
    requires Circle(PairsOf(m, Linkable(C)), N) && k < |N|
    ensures var F, B := Nxt(N, k), Prv(N, k);
      && Rd(m, N[k] + 16) == F && Rd(m, N[k] + 24) == B && Rd(m, F + 24) == N[k] && Rd(m, B + 16) == N[k]
      && F in Linkable(C) && B in Linkable(C) && N[k] in Linkable(C)
  {
    hide Linkable, PairsOf;
    var n, p := if k + 1 < |N| then k + 1 else 0, if k > 0 then k - 1 else |N| - 1;
    var V := PairsOf(m, Linkable(C));
    assert N[n] == Nxt(N, k) && N[p] == Prv(N, k);
    assert V[N[k]] == Pair(Nxt(N, k), Prv(N, k));
    assert V[N[n]] == Pair(Nxt(N, n), N[k]);
    assert V[N[p]] == Pair(N[k], Prv(N, p));
    PairWords(m, Linkable(C), N[k]);
    PairWords(m, Linkable(C), N[n]);
    PairWords(m, Linkable(C), N[p]);
  }

  lemma PairWords(m: Mem, ps: set<int>, p: int)
    requires p in PairsOf(m, ps)
    ensures p in ps && PairsOf(m, ps)[p] == Pair(Rd(m, p + 16), Rd(m, p + 24))
  {
  }

  /** What memory holds for the header of a non-empty bin. */
  lemma BinFront(m: Mem, smallmap: bv32, C: map<int, int>, S: Stacks, i: Index, leastAddr: int)
    requires SmallsOk(m, smallmap, C, S) && SmallReachable(S, leastAddr)
    ensures BinHeader(i) in Linkable(C)
    ensures Marked(smallmap, i) <==> S[i] != []
    ensures S[i] != [] ==> Rd(m, BinHeader(i) + 16) == S[i][0] && S[i][0] >= leastAddr && S[i][0] in Linkable(C)
                           && S[i][0] in SmallMembers(S) && S[i][0] in C
  {
    hide Marked;
    if S[i] != [] { BinNode(m, smallmap, C, S, i, 0, leastAddr); }
  }

  // ---------------------------------------------------------------------------------------
  // Memory after each operation

  lemma SetFdPair(m: Mem, ps: set<int>, x: int, v: int)
    requires Spread(ps) && x in ps
    ensures PairsOf(m[x + 16 := v], ps) == PairsOf(m, ps)[x := PairsOf(m, ps)[x].(fd := v)]
  {
  }

  lemma SetBkPair(m: Mem, ps: set<int>, x: int, v: int)
    requires Spread(ps) && x in ps
    ensures PairsOf(m[x + 24 := v], ps) == PairsOf(m, ps)[x := PairsOf(m, ps)[x].(bk := v)]
  {
  }

  lemma PushPairs(m: Mem, ps: set<int>, b: int, F: int, p: int, m': Mem)
    requires Spread(ps) && b in ps && F in ps && p in ps && p != b && p != F
    requires m' == m[b + 16 := p][F + 24 := p][p + 16 := F][p + 24 := b]
    ensures var V := PairsOf(m, ps);
      var W := V[b := V[b].(fd := p)];
      PairsOf(m', ps) == W[F := W[F].(bk := p)][p := Pair(F, b)]
  {
    hide PairsOf, Spread;
    var m1 := m[b + 16 := p];
    var m2 := m1[F + 24 := p];
    var m3 := m2[p + 16 := F];
    SetFdPair(m, ps, b, p);
    SetBkPair(m1, ps, F, p);
    SetFdPair(m2, ps, p, F);
    SetBkPair(m3, ps, p, b);
  }

  lemma JoinPairs(m: Mem, ps: set<int>, F: int, B: int, m': Mem)
    requires Spread(ps) && B in ps && F in ps && m' == m[F + 24 := B][B + 16 := F]
    ensures var V := PairsOf(m, ps);
      var W := V[F := V[F].(bk := B)];
      PairsOf(m', ps) == W[B := W[B].(fd := F)]
  {
  }

  lemma PushTouches(m: Mem, C: map<int, int>, S: Stacks, i: Index, F: int, p: int, m': Mem)
    requires StacksPlaced(C, S) && p in C && C[p] >= 32 && (F == BinHeader(i) || (F in SmallMembers(S) && C[F] >= 32))
    requires m' == m[BinHeader(i) + 16 := p][F + 24 := p][p + 16 := F][p + 24 := BinHeader(i)]
    ensures Touched(m, m', C, SmallMembers(S) + {p}, SMALLBINS, SMALL_END)
  {
    assert SmallMembers(S) <= C.Keys;
  }

  lemma JoinTouches(m: Mem, C: map<int, int>, S: Stacks, i: Index, F: int, B: int, m': Mem)
    requires StacksPlaced(C, S) && m' == m[F + 24 := B][B + 16 := F]
    requires (F == BinHeader(i) || F in SmallMembers(S)) && (B == BinHeader(i) || B in SmallMembers(S))
    ensures Touched(m, m', C, SmallMembers(S), SMALLBINS, SMALL_END)
  {
    assert SmallMembers(S) <= C.Keys;
  }

  /** p joins the front of bin i. */
  lemma Pushed(m: Mem, smallmap: bv32, C: map<int, int>, S: Stacks, i: Index, p: int, m': Mem, leastAddr: int)
    requires SmallsOk(m, smallmap, C, S) && SmallReachable(S, leastAddr)
    requires p in C && C[p] == 8 * i && SmallSize(8 * i) && p !in S[i] && p >= leastAddr
    requires var F := if S[i] == [] then BinHeader(i) else S[i][0];
      m' == m[BinHeader(i) + 16 := p][F + 24 := p][p + 16 := F][p + 24 := BinHeader(i)]
    ensures SmallsOk(m', Mark(smallmap, i), C, S[i := [p] + S[i]]) && SmallReachable(S[i := [p] + S[i]], leastAddr)
    ensures Touched(m, m', C, SmallMembers(S) + {p}, SMALLBINS, SMALL_END)
    ensures S[i] != [] ==> SmallsOk(m', smallmap, C, S[i := [p] + S[i]])
  {
    hide Mark, Marked, PairsOf, BinsOk, Touched;
    BinFront(m, smallmap, C, S, i, leastAddr);
    var F := if S[i] == [] then BinHeader(i) else S[i][0];
    PushPairs(m, Linkable(C), BinHeader(i), F, p, m');
    PushedBins(PairsOf(m, Linkable(C)), smallmap, C, S, i, p, PairsOf(m', Linkable(C)));
    PushTouches(m, C, S, i, F, p, m');
    if S[i] != [] { MarkIdle(PairsOf(m', Linkable(C)), smallmap, S[i := [p] + S[i]], i); }
  }

  lemma MarkIdle(V: Pairs, smallmap: bv32, S: Stacks, i: Index)
    requires BinsOk(V, Mark(smallmap, i), S) && Marked(smallmap, i)
    ensures BinsOk(V, smallmap, S)
  {
    hide Mark, Marked, Circle;
    MarkTwice(smallmap, i);
  }

  lemma DropReachable(S: Stacks, i: Index, j: nat, leastAddr: int)
    requires SmallReachable(S, leastAddr) && j < |S[i]|
    ensures SmallReachable(S[i := Without(S[i], j)], leastAddr)
  {
    var M := Without(S[i], j);
    forall k | 0 <= k < |M| ensures M[k] == S[i][if k < j then k else k + 1] {
    }
  }

  lemma Dropped(m: Mem, smallmap: bv32, C: map<int, int>, S: Stacks, i: Index, j: nat, m': Mem, leastAddr: int)
    requires SmallsOk(m, smallmap, C, S) && SmallReachable(S, leastAddr) && j < |S[i]| && |S[i]| > 1
    requires var N := [BinHeader(i)] + S[i];
      var F, B := Nxt(N, j + 1), Prv(N, j + 1);
      m' == m[F + 24 := B][B + 16 := F]
    ensures SmallsOk(m', smallmap, C, S[i := Without(S[i], j)]) && SmallReachable(S[i := Without(S[i], j)], leastAddr)
    ensures Touched(m, m', C, SmallMembers(S), SMALLBINS, SMALL_END)
  {
    hide Marked, PairsOf, BinsOk, Touched, StacksPlaced;
    BinNode(m, smallmap, C, S, i, j, leastAddr);
    var N := [BinHeader(i)] + S[i];
    var F, B := Nxt(N, j + 1), Prv(N, j + 1);
    JoinPairs(m, Linkable(C), F, B, m');
    DroppedBins(PairsOf(m, Linkable(C)), smallmap, C, S, i, j, PairsOf(m', Linkable(C)));
    JoinTouches(m, C, S, i, F, B, m');
    WithoutPlaced(C, S, i, j);
    DropReachable(S, i, j, leastAddr);
  }

  lemma Emptied(m: Mem, smallmap: bv32, C: map<int, int>, S: Stacks, i: Index, leastAddr: int)
    requires SmallsOk(m, smallmap, C, S) && SmallReachable(S, leastAddr) && |S[i]| == 1
    ensures SmallsOk(m, Clear(smallmap, i), C, S[i := Without(S[i], 0)])
      && SmallReachable(S[i := Without(S[i], 0)], leastAddr)
    ensures Touched(m, m, C, SmallMembers(S), SMALLBINS, SMALL_END)
  {
    hide Marked, Clear, PairsOf, BinsOk, Apart;
    EmptiedBins(PairsOf(m, Linkable(C)), smallmap, S, i);
    WithoutPlaced(C, S, i, 0);
    DropReachable(S, i, 0, leastAddr);
  }

  class SmallBins {
    const arena: Arena
    var smallmap: bv32
    ghost var stacks: Stacks

    ghost predicate Valid(C: map<int, int>)
      reads this, arena
    {
      SmallsOk(arena.mem, smallmap, C, stacks) && SmallReachable(stacks, arena.leastAddr)
    }

    /** init_bins only writes header words that mean nothing while smallmap is clear. */
    constructor (arena: Arena)
      ensures this.arena == arena && smallmap == 0 && stacks == seq(32, _ => [])
    {
      this.arena := arena;
      smallmap := 0;
      stacks := seq(32, _ => []);
    }

    /** insert_small_chunk */
    method Insert(p: int, s: nat, ghost C: map<int, int>)
      requires Valid(C) && SmallSize(s)
      requires p in C && C[p] == s && p !in stacks[SmallIndex(s)] && p >= arena.leastAddr
      modifies this, arena`mem
      ensures Valid(C)
      ensures var i := SmallIndex(s); stacks == old(stacks)[i := [p] + old(stacks)[i]]
      ensures Touched(old(arena.mem), arena.mem, C, SmallMembers(old(stacks)) + {p}, SMALLBINS, SMALL_END)
    {
      hide SmallsOk, SmallReachable, Touched, Mark, Marked, SmallMembers, Linkable;
      ghost var m0, S := arena.mem, stacks;
      var i: Index := SmallIndex(s);
      BinFront(m0, smallmap, C, S, i, arena.leastAddr);
      var B := BinHeader(i);
      var F := B;
      if !Marked(smallmap, i) {
        smallmap := Mark(smallmap, i);
      } else if Rd(arena.mem, B + 16) >= arena.leastAddr {
        F := Rd(arena.mem, B + 16);
      } else {
        assert false;  // CORRUPTION_ERROR_ACTION
      }
      arena.Write(B + 16, p);
      arena.Write(F + 24, p);
      arena.Write(p + 16, F);
      arena.Write(p + 24, B);
      Pushed(m0, old(smallmap), C, S, i, p, arena.mem, arena.leastAddr);
      stacks := S[i := [p] + S[i]];
    }

    /** unlink_small_chunk */
    method Unlink(p: int, s: nat, ghost C: map<int, int>)
      requires Valid(C) && SmallSize(s) && p in stacks[SmallIndex(s)]
      modifies this, arena`mem
      ensures Valid(C)
      ensures var i := SmallIndex(s);
        stacks == old(stacks)[i := Without(old(stacks)[i], IndexOf(old(stacks)[i], p))]
      ensures Touched(old(arena.mem), arena.mem, C, SmallMembers(old(stacks)), SMALLBINS, SMALL_END)
    {
      hide SmallsOk, SmallReachable, Touched, Clear, SmallMembers, Linkable;
      ghost var m0, S := arena.mem, stacks;
      var i: Index := SmallIndex(s);
      ghost var j := IndexOf(S[i], p);
      BinNode(m0, smallmap, C, S, i, j, arena.leastAddr);
      var F := Rd(arena.mem, p + 16);
      var B := Rd(arena.mem, p + 24);
      if F == BinHeader(i) || (F >= arena.leastAddr && Rd(arena.mem, F + 24) == p) {
        if B == F {
          Emptied(m0, smallmap, C, S, i, arena.leastAddr);
          smallmap := Clear(smallmap, i);
        } else if B == BinHeader(i) || (B >= arena.leastAddr && Rd(arena.mem, B + 16) == p) {
          Dropped(m0, smallmap, C, S, i, j, m0[F + 24 := B][B + 16 := F], arena.leastAddr);
          arena.Write(F + 24, B);
          arena.Write(B + 16, F);
        } else {
          assert false;  // CORRUPTION_ERROR_ACTION
        }
      } else {
        assert false;  // CORRUPTION_ERROR_ACTION
      }
      stacks := S[i := Without(S[i], j)];
    }

    /** The front chunk of a marked bin, as dlmalloc reads it. */
    method First(i: Index, ghost C: map<int, int>) returns (p: int)
      requires Valid(C) && Marked(smallmap, i)
      ensures stacks[i] != [] && p == stacks[i][0]
    {
      hide SmallsOk, SmallReachable;
      BinFront(arena.mem, smallmap, C, stacks, i, arena.leastAddr);
      p := Rd(arena.mem, BinHeader(i) + 16);
    }

    /** unlink_first_small_chunk */
    method UnlinkFirst(p: int, i: Index, ghost C: map<int, int>)
      requires Valid(C) && stacks[i] != [] && p == stacks[i][0]
      modifies this, arena`mem
      ensures Valid(C) && stacks == old(stacks)[i := old(stacks)[i][1..]]
      ensures Touched(old(arena.mem), arena.mem, C, SmallMembers(old(stacks)), SMALLBINS, SMALL_END)
    {
      hide SmallsOk, SmallReachable, Touched, Clear, SmallMembers, Linkable;
      ghost var m0, S := arena.mem, stacks;
      BinNode(m0, smallmap, C, S, i, 0, arena.leastAddr);
      var B := BinHeader(i);
      var F := Rd(arena.mem, p + 16);
      if B == F {
        Emptied(m0, smallmap, C, S, i, arena.leastAddr);
        smallmap := Clear(smallmap, i);
      } else if F >= arena.leastAddr && Rd(arena.mem, F + 24) == p {
        Dropped(m0, smallmap, C, S, i, 0, m0[F + 24 := B][B + 16 := F], arena.leastAddr);
        arena.Write(F + 24, B);
        arena.Write(B + 16, F);
      } else {
        assert false;  // CORRUPTION_ERROR_ACTION
      }
      assert Without(S[i], 0) == S[i][1..];
      stacks := S[i := S[i][1..]];
    }
  }
}
