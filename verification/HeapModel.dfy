/** What the operations do, told without words, tags, tries and bitmaps: the chunks, the lists of the
    bins, and the dv and top chunks.  The methods of class Heap are proved to do exactly this. */
module HeapModel {
  import opened ChunkMemory
  import opened HeapState
  import opened TreeState
  import opened Freeing
  import opened Tiling
  import opened Chunks
  import opened Recuts
  import opened HeapBins
  import opened HeapInvariant
  datatype Model = Model(h: Shape, l: Contents, k: Marks)

  // ---------------------------------------------------------------------------------------
  // malloc

  /** A request is served from the unbinned chunk p; a rest that makes a chunk is binned, or becomes dv,
      and then the old dv is binned. */
  function UseSpare(w: Model, p: int, nb: int, replaceDv: bool): Model
    requires p in w.h.C && 0 <= nb && 0 <= w.k.dvsize
  {
    var s := w.h.C[p];
    if s - nb < MIN_CHUNK_SIZE then
      w.(h := One(w.h, p, p + s, true))
    else
      var h := Two(w.h, p, p + nb, p + s, false);
      if replaceDv then
        Model(h, if w.k.dvsize != 0 then Put(w.l, w.k.dv, w.k.dvsize) else w.l, w.k.(dv := p + nb, dvsize := s - nb))
      else
        Model(h, Put(w.l, p + nb, s - nb), w.k)
  }

  /** The same for a chunk that is taken out of its bin. */
  function UseBinned(w: Model, p: int, nb: int, replaceDv: bool): Model
    requires p in w.h.C && 0 <= nb && 0 <= w.h.C[p] && 0 <= w.k.dvsize
  {
    UseSpare(w.(l := Take(w.l, p, w.h.C[p])), p, nb, replaceDv)
  }

  function UseDv(w: Model, nb: int): Model {
    var p, s := w.k.dv, w.k.dvsize;
    if s - nb >= MIN_CHUNK_SIZE then
      Model(Two(w.h, p, p + nb, p + s, false), w.l, w.k.(dv := p + nb, dvsize := s - nb))
    else
      Model(One(w.h, p, p + s, true), w.l, w.k.(dv := 0, dvsize := 0))
  }

  function UseTop(w: Model, nb: int): Model {
    var p, s := w.k.top, w.k.topsize;
    Model(Two(w.h, p, p + nb, p + s, false), w.l, w.k.(top := p + nb, topsize := s - nb))
  }

  /** i is the least non-empty smallbin from the one for nb on. */
  ghost predicate LeastBin(w: Model, nb: int, i: nat) {
    && nb <= 8 * i < 256 && w.l.stacks[i] != []
    && forall j: nat | nb <= 8 * j < 8 * i :: w.l.stacks[j] == []
  }

  /** s is the least size of at least nb in the trees. */
  ghost predicate LeastTree(w: Model, nb: int, s: nat) {
    && s in w.l.fifo && w.l.fifo[s] != [] && nb <= s
    && forall t | t in w.l.fifo :: t < nb || s <= t
  }

  /** Every free chunk is too small for nb bytes; top may just have so many, because it must not be used up. */
  predicate NoneFits(h: Shape, nb: int) {
    forall p | p in h.C && p !in h.U :: h.C[p] < nb || (p == h.top && h.C[p] == nb)
  }

  /** Without a suitable binned chunk, dv serves, or else top, or else nothing. */
  predicate ServesOtherwise(w: Model, nb: nat, w': Model, p: int) {
    if nb <= w.k.dvsize then
      p == w.k.dv && w' == UseDv(w, nb)
    else if nb < w.k.topsize then
      p == w.k.top && w' == UseTop(w, nb)
    else
      p == 0 && w' == w
  }

  /** dlmalloc for a small request, up to the call of sys_alloc: which chunk serves it. */
  ghost predicate ServesSmall(w: Model, nb: nat, w': Model, p: int)
    requires nb < 256 && 0 <= w.k.dvsize
  {
    if exists i: nat :: LeastBin(w, nb, i) && (8 * i == nb || nb > w.k.dvsize) then
      exists i: nat :: LeastBin(w, nb, i) && p == w.l.stacks[i][0]
        && p in w.h.C && w.h.C[p] == 8 * i && w' == UseBinned(w, p, nb, true)
    else if nb > w.k.dvsize && w.l.fifo != map[] then
      exists s: nat :: LeastTree(w, nb, s) && p == w.l.fifo[s][0]
        && p in w.h.C && w.h.C[p] == s && w' == UseBinned(w, p, nb, true)
    else
      ServesOtherwise(w, nb, w', p)
  }

  /** dlmalloc for a large request. */
  ghost predicate ServesLarge(w: Model, nb: nat, w': Model, p: int)
    requires 0 <= w.k.dvsize
  {
    if exists s: nat :: LeastTree(w, nb, s) && (nb <= w.k.dvsize ==> s < w.k.dvsize) then
      exists s: nat :: LeastTree(w, nb, s) && p == w.l.fifo[s][0]
        && p in w.h.C && w.h.C[p] == s && w' == UseBinned(w, p, nb, false)
    else
      ServesOtherwise(w, nb, w', p)
  }

  // ---------------------------------------------------------------------------------------
  // free

  /** Where the free space before p begins: at the free chunk that ends at p, or at p itself. */
  ghost function FreeStart(h: Shape, p: int): int {
    if q :| q in h.C && q !in h.U && q + h.C[q] == p then q else p
  }

  /** Freeing p after the chunk at lo before it, if free and not dv, was taken out of its bin. */
  function FreeForward(w: Model, lo: int, p: int): Model
    requires p in w.h.C && lo <= p && w.h.C[p] >= 0
    requires p + w.h.C[p] in w.h.C && w.h.C[p + w.h.C[p]] >= 0
  {
    var n := p + w.h.C[p];
    var hi := if n in w.h.U then n else n + w.h.C[n];
    var h := One(w.h, lo, hi, false);
    if n !in w.h.U && n == w.k.top then
      Model(h, w.l, if lo == w.k.dv then Marks(0, 0, lo, hi - lo) else w.k.(top := lo, topsize := hi - lo))
    else if n !in w.h.U && n == w.k.dv then
      Model(h, w.l, w.k.(dv := lo, dvsize := hi - lo))
    else
      var l := if n in w.h.U then w.l else Take(w.l, n, w.h.C[n]);
      if lo == w.k.dv then Model(h, l, w.k.(dvsize := hi - lo)) else Model(h, Put(l, lo, hi - lo), w.k)
  }

  ghost predicate FreesForward(w: Model, lo: int, p: int, w': Model) {
    && p in w.h.C && lo <= p && w.h.C[p] >= 0
    && p + w.h.C[p] in w.h.C && w.h.C[p + w.h.C[p]] >= 0
    && w' == FreeForward(w, lo, p)
  }

  function FreeBack(w: Model, lo: int, p: int): Model
    requires lo in w.h.C && w.h.C[lo] >= 0
  {
    if lo < p && lo != w.k.dv then w.(l := Take(w.l, lo, w.h.C[lo])) else w
  }

  /** The chunk p becomes free space, together with the free chunks before and behind it. */
  ghost function Freed(w: Model, p: int): Model
    requires Owned(w.h, p) && forall q | q in w.h.C :: w.h.C[q] >= 0
  {
    var lo := FreeStart(w.h, p);
    FreeForward(FreeBack(w, lo, p), lo, p)
  }

  /** The chunk behind p is top. */
  predicate GrowsTop(w: Model, p: int)
    requires p in w.h.C
  {
    p + w.h.C[p] == w.k.top
  }

  /** Freeing p makes a large chunk that goes into a bin. */
  ghost predicate BinsLarge(w: Model, p: int)
    requires p in w.h.C
  {
    var lo, n := FreeStart(w.h, p), p + w.h.C[p];
    && n !in {w.k.top, w.k.dv} && lo != w.k.dv
    && 256 <= (if n in w.h.C && n !in w.h.U then n + w.h.C[n] else n) - lo
  }

  lemma FreeStartIs(m: Mem, h: Shape, lo: int, p: int)
    requires TagsOk(m, h) && Joint(h, lo, p) && (lo == p ==> forall q | q in h.C && q + h.C[q] == p :: q in h.U)
    ensures FreeStart(h, p) == lo
  {
    hide RegionOk, BackOk, FootOk;
    if lo != p {
      var q := FreeStart(h, p);
      assert q in h.C && q !in h.U && q + h.C[q] == p;
      ChunkFacts(m, h, q);
      ChunkFacts(m, h, lo);
    }
  }

  lemma SizesPositive(m: Mem, h: Shape)
    requires TagsOk(m, h)
    ensures forall q | q in h.C :: h.C[q] > 0
  {
    hide RegionOk, BackOk, FootOk, Apart;
    forall q | q in h.C ensures h.C[q] > 0 {
      ChunkFacts(m, h, q);
    }
  }

  // ---------------------------------------------------------------------------------------
  // realloc in place

  /** The chunk p is cut behind nb bytes, and the rest is freed. */
  ghost predicate Trims(w: Model, p: int, nb: int, hi: int, w': Model) {
    var h := Two(w.h, p, p + nb, hi, true);
    && Owned(h, p + nb) && (forall q | q in h.C :: h.C[q] >= 0)
    && w' == Freed(w.(h := h), p + nb)
  }

  /** p has nb bytes, or there is free space behind it that makes up for the rest; of top something must remain. */
  predicate CanGrow(h: Shape, p: int, nb: int)
    requires Owned(h, p)
  {
    var s, n := h.C[p], p + h.C[p];
    nb <= s || (n !in h.U && if n == h.top then nb < s + h.C[n] else nb <= s + h.C[n])
  }

  /** try_realloc_chunk: whether p can be given nb bytes where it is, and what becomes of the heap then. */
  ghost predicate Resizes(w: Model, p: int, nb: int, w': Model, ok: bool)
    requires Owned(w.h, p)
  {
    var s, k := w.h.C[p], w.k;
    var n := p + s;
    if nb <= s then
      ok && if s - nb >= MIN_CHUNK_SIZE then Trims(w, p, nb, n, w') else w' == w
    else if n == k.top then
      if s + k.topsize > nb then
        ok && w' == Model(Two(w.h, p, p + nb, n + k.topsize, false), w.l,
                          k.(top := p + nb, topsize := s + k.topsize - nb))
      else
        !ok && w' == w
    else if n == k.dv then
      if s + k.dvsize < nb then
        !ok && w' == w
      else if s + k.dvsize - nb >= MIN_CHUNK_SIZE then
        ok && w' == Model(Two(w.h, p, p + nb, n + k.dvsize, false), w.l, k.(dv := p + nb, dvsize := s + k.dvsize - nb))
      else
        ok && w' == Model(One(w.h, p, n + k.dvsize, true), w.l, k.(dv := 0, dvsize := 0))
    else if n in w.h.U || s + w.h.C[n] < nb then
      !ok && w' == w
    else
      var l := Take(w.l, n, w.h.C[n]);
      if s + w.h.C[n] - nb < MIN_CHUNK_SIZE then
        ok && w' == Model(One(w.h, p, n + w.h.C[n], true), l, k)
      else
        ok && Trims(w.(l := l), p, nb, n + w.h.C[n], w')
  }

  // ---------------------------------------------------------------------------------------
  // Freeing as the interval model sees it

  lemma FreeStartJoint(m: Mem, h: Shape, p: int)
    requires TagsOk(m, h) && p in h.C
    ensures Joint(h, FreeStart(h, p), p) && FreeStart(h, p) <= p
  {
    hide ChunkOk, RegionOk, Apart;
    SizesPositive(m, h);
  }

  /** The chunks of the space that Freed turns into one free chunk. */
  lemma FreedSpace(m: Mem, h: Shape, lo: int, p: int)
    requires TagsOk(m, h) && Owned(h, p) && Joint(h, lo, p) && lo <= p
    ensures var n := p + h.C[p]; var hi := if n in h.U then n else n + h.C[n];
      lo < hi && forall q | q in h.U && lo <= q < hi :: q == p
  {
    hide RegionOk, BackOk, FootOk;
    SizesPositive(m, h);
  }

  lemma OneUse(h: Shape, lo: int, hi: int, p: int)
    requires lo < hi && p in h.U && lo <= p < hi && h.U <= h.C.Keys && forall q | q in h.U && lo <= q < hi :: q == p
    ensures var h' := One(h, lo, hi, false); h'.R == h.R && h'.U == h.U - {p} && UsedMap(h') == UsedMap(h) - {p}
  {
    var h' := One(h, lo, hi, false);
    assert h'.U == h.U - {p};
    var a, c := UsedMap(h'), UsedMap(h) - {p};
    assert forall q :: q in a <==> q in c;
    assert forall q | q in a :: a[q] == c[q];
  }

  /** Freeing takes exactly one chunk out of the ones in use.  By UsedDetermineAll this says what all other
      chunks are: nothing but the gaps between the chunks in use, whichever way dlfree went. */
  lemma FreedUse(m: Mem, w: Model, p: int)
    requires TagsOk(m, w.h) && Owned(w.h, p) && forall q | q in w.h.C :: w.h.C[q] >= 0
    ensures var h' := Freed(w, p).h;
      h'.R == w.h.R && h'.U == w.h.U - {p} && UsedMap(h') == UsedMap(w.h) - {p}
  {
    hide TagsOk, One, Put, Take, Joint, UsedMap;
    var lo := FreeStart(w.h, p);
    FreeStartJoint(m, w.h, p);
    FreedSpace(m, w.h, lo, p);
    var n := p + w.h.C[p];
    var hi := if n in w.h.U then n else n + w.h.C[n];
    assert w.h.U <= w.h.C.Keys by { ApartOf(m, w.h); }
    assert p < n by { SizesPositive(m, w.h); }
    assert n <= hi;
    OneUse(w.h, lo, hi, p);
  }

}
