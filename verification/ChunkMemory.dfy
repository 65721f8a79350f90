/** Process memory as 8-byte words, and the chunk header fields stored in it (malloc.c, "Chunks
    sizes and alignments" to "Overlaid data structures").  An address is an `int`; a word never
    written reads as zero. */
module ChunkMemory {

  type Mem = map<int, int>

  function Rd(m: Mem, a: int): int {
    if a in m then m[a] else 0
  }

  // The bin headers of malloc_state are static words; memory obtained from the system lies above.
  const SMALLBINS: int := 0x1000
  const TREEBINS: int := 0x2000
  const HEAP_MIN: int := 0x1_0000

  // ---------------------------------------------------------------------------------------
  // The head word: a multiple of 8, plus PINUSE_BIT (1) and CINUSE_BIT (2)

  const FENCEPOST_HEAD: int := 11

  predicate Pinuse(h: int) {
    h % 2 == 1
  }

  predicate Cinuse(h: int) {
    (h / 2) % 2 == 1
  }

  /** chunksize */
  function ChunkSize(h: int): int {
    h - h % 8
  }

  /** is_inuse: free chunks are the ones with PINUSE set and CINUSE clear */
  predicate IsInuse(h: int) {
    h % 4 != 1
  }

  predicate IsMmapped(h: int) {
    h % 4 == 0
  }

  lemma Bits(q: int, d: int, r: int)
    requires d == 2 || d == 4 || d == 8
    requires 0 <= r < d
    ensures (d * q + r) / d == q && (d * q + r) % d == r
  {
  }

  lemma FlagBits(k: int, flags: int)
    requires 0 <= flags < 4
    ensures (8 * k + flags) % 8 == flags && (8 * k + flags) % 4 == flags
    ensures (8 * k + flags) % 2 == flags % 2 && ((8 * k + flags) / 2) % 2 == flags / 2
  {
    Bits(k, 8, flags);
    Bits(2 * k, 4, flags);
    Bits(4 * k + flags / 2, 2, flags % 2);
    Bits(2 * k, 2, flags / 2);
  }

  function Head(size: int, pinuse: bool, cinuse: bool): (h: int)
    ensures size % 8 == 0 ==> ChunkSize(h) == size && Pinuse(h) == pinuse && Cinuse(h) == cinuse
    ensures size % 8 == 0 ==> IsInuse(h) == (cinuse || !pinuse) && IsMmapped(h) == (!cinuse && !pinuse)
  {
    var flags := (if pinuse then 1 else 0) + (if cinuse then 2 else 0);
    assert size % 8 == 0 ==> size == 8 * (size / 8);
    FlagBits(size / 8, flags);
    size + flags
  }

  // ---------------------------------------------------------------------------------------
  // The fields of a free chunk

  /** fd, bk, child[0], child[1], parent and index of the chunk at an address. */
  datatype Links = Links(fd: int, bk: int, left: int, right: int, parent: int, index: int) {
    function Kid(b: int): int {
      if b == 0 then left else right
    }

    function SetKid(b: int, v: int): Links {
      if b == 0 then this.(left := v) else this.(right := v)
    }
  }

  function ViewOf(m: Mem, p: int): Links {
    Links(Rd(m, p + 16), Rd(m, p + 24), Rd(m, p + 32), Rd(m, p + 40), Rd(m, p + 48), Rd(m, p + 56))
  }

  type Views = map<int, Links>

  ghost function ViewsOf(m: Mem, ps: set<int>): (v: Views)
    ensures v.Keys == ps
  {
    map p | p in ps :: if p in ps then ViewOf(m, p) else Links(0, 0, 0, 0, 0, 0)
  }

  /** Chunks of at least 64 bytes that do not overlap. */
  ghost predicate Spaced(ps: set<int>) {
    && (forall p | p in ps :: p >= HEAP_MIN)
    && (forall p, q | p in ps && q in ps && p < q :: p + 64 <= q)
  }

  /** The words of m and m' differ only inside the chunks of free (behind their header) and in the
      static words from lo to hi. */
  ghost predicate Touched(m: Mem, m': Mem, C: map<int, int>, free: set<int>, lo: int, hi: int) {
    && free <= C.Keys
    && forall a {:trigger Rd(m', a)} ::
         !(lo <= a < hi) && (forall p | p in free :: !(p + 16 <= a < p + C[p])) ==> Rd(m', a) == Rd(m, a)
  }

  /** The n words at from were copied to to, and nothing else changed. */
  ghost predicate Copied(m: Mem, m': Mem, from: int, to: int, n: int) {
    && (forall a {:trigger Rd(m', a)} | to <= a < to + n :: Rd(m', a) == Rd(m, a - to + from))
    && (forall a {:trigger Rd(m', a)} | !(to <= a < to + n) :: Rd(m', a) == Rd(m, a))
  }

  class Arena {
    var mem: Mem
    var leastAddr: int

    constructor ()
      ensures mem == map[] && leastAddr == 0
    {
      mem := map[];
      leastAddr := 0;
    }

    method Write(a: int, v: int)
      modifies this`mem
      ensures mem == old(mem)[a := v]
    {
      mem := mem[a := v];
    }

    /** memcpy */
    method Copy(from: int, to: int, n: nat)
      requires from + n <= to || to + n <= from
      modifies this`mem
      ensures Copied(old(mem), mem, from, to, n)
    {
      var i := 0;
      while i < n
        invariant 0 <= i <= n && Copied(old(mem), mem, from, to, i)
      {
        ghost var m := mem;
        mem := mem[to + i := Rd(mem, from + i)];
        forall a {:trigger Rd(mem, a)} ensures Rd(mem, a) == if a == to + i then Rd(m, from + i) else Rd(m, a) {
        }
        i := i + 1;
      }
    }

    method SetFd(p: int, v: int, ghost ps: set<int>)
      requires p in ps && Spaced(ps)
      modifies this`mem
      ensures mem == old(mem)[p + 16 := v]
      ensures ViewsOf(mem, ps) == ViewsOf(old(mem), ps)[p := ViewsOf(old(mem), ps)[p].(fd := v)]
    {
      mem := mem[p + 16 := v];
    }

    method SetBk(p: int, v: int, ghost ps: set<int>)
      requires p in ps && Spaced(ps)
      modifies this`mem
      ensures mem == old(mem)[p + 24 := v]
      ensures ViewsOf(mem, ps) == ViewsOf(old(mem), ps)[p := ViewsOf(old(mem), ps)[p].(bk := v)]
    {
      mem := mem[p + 24 := v];
    }

    method SetChild(p: int, b: int, v: int, ghost ps: set<int>)
      requires p in ps && Spaced(ps) && 0 <= b < 2
      modifies this`mem
      ensures mem == old(mem)[p + 32 + 8 * b := v]
      ensures ViewsOf(mem, ps) == ViewsOf(old(mem), ps)[p := ViewsOf(old(mem), ps)[p].SetKid(b, v)]
    {
      mem := mem[p + 32 + 8 * b := v];
    }

    method SetParent(p: int, v: int, ghost ps: set<int>)
      requires p in ps && Spaced(ps)
      modifies this`mem
      ensures mem == old(mem)[p + 48 := v]
      ensures ViewsOf(mem, ps) == ViewsOf(old(mem), ps)[p := ViewsOf(old(mem), ps)[p].(parent := v)]
    {
      mem := mem[p + 48 := v];
    }

    method SetIndex(p: int, v: int, ghost ps: set<int>)
      requires p in ps && Spaced(ps)
      modifies this`mem
      ensures mem == old(mem)[p + 56 := v]
      ensures ViewsOf(mem, ps) == ViewsOf(old(mem), ps)[p := ViewsOf(old(mem), ps)[p].(index := v)]
    {
      mem := mem[p + 56 := v];
    }
  }

  /** A write to a static word leaves the fields of all chunks alone. */
  lemma StaticWrite(m: Mem, a: int, v: int, ps: set<int>)
    requires Spaced(ps) && a < HEAP_MIN
    ensures ViewsOf(m[a := v], ps) == ViewsOf(m, ps)
  {
  }
}
