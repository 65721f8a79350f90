/** What bulk_free leaves of the heap: the same chunks as freeing the entries one after the other, although
    it joins neighbours first and frees fewer, larger chunks. */
module BulkFreeing {
  import opened ChunkMemory
  import opened Chunks
  import opened Freeing
  import opened Tiling
  import opened HeapModel
  import opened HeapFacts
  // ---------------------------------------------------------------------------------------
  // One entry after the other

  /** What dispose_chunk does to the chunks of the heap; a mapped chunk is not among them. */
  ghost predicate FreesEntry(w: Model, p: int, w': Model) {
    if p in w.h.C then
      Owned(w.h, p) && (forall q | q in w.h.C :: w.h.C[q] >= 0) && w' == Freed(w, p)
    else
      w' == w
  }

  /** The states of a heap while the entries of ps are freed one after the other. */
  ghost predicate FreesEach(ms: seq<Mem>, ws: seq<Model>, ps: seq<int>) {
    && |ms| == |ws| == |ps| + 1
    && (forall i | 0 <= i < |ws| :: TagsOk(ms[i], ws[i].h))
    && (forall i | 0 <= i < |ps| :: FreesEntry(ws[i], ps[i], ws[i + 1]))
  }

  function Elements(ps: seq<int>): set<int> {
    set p | p in ps
  }

  /** The same regions, and the chunks in use without those of E. */
  ghost predicate Without(h: Shape, E: set<int>, h': Shape) {
    h'.R == h.R && UsedMap(h') == UsedMap(h) - E
  }

  lemma EntryFreed(m: Mem, w: Model, p: int, w': Model)
    requires TagsOk(m, w.h) && FreesEntry(w, p, w')
    ensures Without(w.h, {p}, w'.h)
  {
    hide TagsOk, Owned, Freed, UsedMap;
    if p in w.h.C {
      FreedUse(m, w, p);
    } else {
      NotUsed(w.h, p);
    }
  }

  lemma NotUsed(h: Shape, p: int)
    requires p !in h.C
    ensures UsedMap(h) - {p} == UsedMap(h)
  {
    EqualIfSame(UsedMap(h) - {p}, UsedMap(h));
  }

  lemma WithoutBoth(h: Shape, E: set<int>, h1: Shape, F: set<int>, h2: Shape)
    requires Without(h, E, h1) && Without(h1, F, h2)
    ensures Without(h, E + F, h2)
  {
    hide UsedMap;
    EqualIfSame(UsedMap(h) - E - F, UsedMap(h) - (E + F));
  }

  lemma {:induction false} EachFreed(ms: seq<Mem>, ws: seq<Model>, ps: seq<int>, n: nat)
    requires FreesEach(ms, ws, ps) && n <= |ps|
    ensures Without(ws[0].h, Elements(ps[..n]), ws[n].h)
  {
    hide TagsOk, FreesEntry, Without, UsedMap;
    if n == 0 {
      WithoutNone(ws[0].h);
      assert Elements(ps[..0]) == {};
    } else {
      EachFreed(ms, ws, ps, n - 1);
      EntryFreed(ms[n - 1], ws[n - 1], ps[n - 1], ws[n]);
      WithoutBoth(ws[0].h, Elements(ps[..n - 1]), ws[n - 1].h, {ps[n - 1]}, ws[n].h);
      assert ps[..n] == ps[..n - 1] + [ps[n - 1]];
      assert Elements(ps[..n]) == Elements(ps[..n - 1]) + {ps[n - 1]};
    }
  }

  lemma WithoutNone(h: Shape)
    ensures Without(h, {}, h)
  {
    hide UsedMap;
    EqualIfSame(UsedMap(h) - {}, UsedMap(h));
  }

  lemma UseKeys(m: Mem, h: Shape)
    requires TagsOk(m, h)
    ensures h.U == UsedMap(h).Keys
  {
    ApartOf(m, h);
  }

  /** Whatever order the entries are freed in one by one, and whichever of them are joined before they are
      freed, the heap ends with the same chunks. */
  lemma OneByOne(ms: seq<Mem>, ws: seq<Model>, ps: seq<int>, m: Mem, h: Shape)
    requires FreesEach(ms, ws, ps) && TagsOk(m, h) && Without(ws[0].h, Elements(ps), h)
    ensures h == ws[|ps|].h
  {
    hide TagsOk, FreesEntry, UsedMap;
    var n := |ps|;
    EachFreed(ms, ws, ps, n);
    assert ps[..n] == ps;
    UseKeys(m, h);
    UseKeys(ms[n], ws[n].h);
    UsedDetermineAll(m, h, ms[n], ws[n].h);
  }

  // ---------------------------------------------------------------------------------------
  // The entries still to do

  /** Apart from the entries s still to do, what is in use is what was without those of E. */
  ghost predicate ToDo(h0: Shape, h: Shape, E: set<int>, s: seq<int>) {
    h.R == h0.R && UsedMap(h) - Listed(s) == UsedMap(h0) - E
  }

  lemma NullToDo(h0: Shape, h: Shape, E: set<int>, s: seq<int>)
    requires ToDo(h0, h, E, s) && s != [] && s[0] == 0 && OnceEach(s)
    ensures ToDo(h0, h, E, s[1..])
  {
    SkipNull(s);
  }

  lemma FreedToDo(h0: Shape, h: Shape, h': Shape, E: set<int>, s: seq<int>, p: int)
    requires ToDo(h0, h, E, s) && s != [] && OnceEach(s) && s[0] == p + 16 && s[0] != 0 && Without(h, {p}, h')
    ensures ToDo(h0, h', E, s[1..])
  {
    hide UsedMap, OnceEach;
    RestListed(s);
    EqualIfSame(UsedMap(h') - Listed(s[1..]), UsedMap(h) - Listed(s));
  }

  lemma JoinedToDo(h0: Shape, h: Shape, h': Shape, E: set<int>, s: seq<int>, p: int, next: int)
    requires ToDo(h0, h, E, s) && |s| > 1 && OnceEach(s) && s[0] == p + 16 && s[0] != 0
      && s[1] == next + 16 && s[1] != 0
    requires p != next && p in UsedMap(h') && h'.R == h.R
      && UsedMap(h') == (UsedMap(h) - {p, next})[p := UsedMap(h')[p]]
    ensures ToDo(h0, h', E, s[1..][0 := p + 16])
  {
    hide UsedMap, OnceEach;
    var t := s[1..][0 := p + 16];
    JoinedListed(s, p);
    EqualIfSame(UsedMap(h') - Listed(t), UsedMap(h) - Listed(s));
  }

  lemma NoneToDo(h0: Shape, h: Shape, E: set<int>)
    requires ToDo(h0, h, E, [])
    ensures Without(h0, E, h)
  {
    hide UsedMap;
    NothingListed([]);
    EqualIfSame(UsedMap(h) - {}, UsedMap(h));
  }
}
