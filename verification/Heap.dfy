/** The chunk operations of malloc_state that do not involve the system (malloc.c, "malloc", "free"
    and "Internal support for realloc, memalign, etc"). */
module Heap {
  import opened Words
  import opened BinMap
  import opened ChunkMemory
  import opened Lists
  import TreeLinks
  import opened TreeState
  import opened AllBins
  import opened Chunks
  import opened HeapState
  import opened Recuts
  import opened TagWrites
  import opened HeapBins
  import opened HeapInvariant
  import opened Carving
  import opened Freeing
  import opened Resizing
  import opened Tiling
  import opened HeapModel
  import opened Requests
  import opened HeapFacts
  import ReuseOrder
  import Trie
  import SmallBins
  import TreeBins

  /** What dlfree considers next: trimming top, or releasing unused segments. */
  datatype Aftermath = Quiet | TopGrew(tsize: int) | LargeBinned

  class Heap {
    const arena: Arena
    const small: SmallBins.SmallBins
    const tree: TreeBins.TreeBins
    var dv: int
    var dvsize: int
    var top: int
    var topsize: int
    ghost var h: Shape
    // All that was binned and unbinned so far.
    ghost var run: seq<ReuseOrder.Step>

    /** The parts are those of one heap, and the bins are what the history made them. */
    ghost predicate Linked()
      reads this, small, tree
    {
      small.arena == arena && tree.arena == arena && ReuseOrder.Recorded(run, ContentsOf(Bins()))
    }

    ghost function Bins(): BinState
      reads small, tree
    {
      BinState(small.smallmap, small.stacks, tree.treemap, tree.forest, tree.fifo)
    }

    ghost function Fields(): Marks
      reads this
    {
      Marks(dv, dvsize, top, topsize)
    }

    /** Tags and bins are in order. */
    ghost predicate Sound()
      reads this, arena, small, tree
    {
      Linked() && Core(arena.mem, Bins(), h, arena.leastAddr)
    }

    /** The invariant while an operation is working on the free chunks X. */
    ghost predicate Holds(X: set<int>)
      reads this, arena, small, tree
    {
      Linked() && HeapOk(arena.mem, Bins(), h, Fields(), arena.leastAddr, X)
    }

    ghost predicate Valid()
      reads this, arena, small, tree
    {
      Holds({})
    }

    /** malloc_state before its first use: all zero. */
    constructor ()
      ensures Valid() && fresh(arena) && fresh(small) && fresh(tree)
      ensures h == Shape(map[], {}, map[], 0) && dv == 0 && top == 0 && arena.leastAddr == 0
    {
      var a := new Arena();
      var s := new SmallBins.SmallBins(a);
      var t := new TreeBins.TreeBins(a);
      arena, small, tree := a, s, t;
      dv, dvsize, top, topsize := 0, 0, 0, 0;
      h := Shape(map[], {}, map[], 0);
      run := [];
      new;
      EmptyHeap(a.leastAddr);
      ReuseOrder.NothingRecorded();
    }

    /** Everything but words, tags, tries and bitmaps. */
    ghost function State(): Model
      reads this, small, tree
    {
      Model(h, ContentsOf(Bins()), Fields())
    }

    /** insert_small_chunk */
    method InsertSmallChunk(p: int, s: nat)
      requires Sound() && p in h.C && s == h.C[p] && s < 256 && Binnable(Bins(), h, p)
      modifies this`run, small, tree, arena`mem
      ensures Sound() && Binned(Bins()) == old(Binned(Bins())) + {p}
      ensures ContentsOf(Bins()) == Put(old(ContentsOf(Bins())), p, s)
      ensures Tame(old(arena.mem), h, arena.mem, h, {}) && HeadsKept(old(arena.mem), arena.mem, h)
    {
      hide ReuseOrder.Recorded, Core, Binned, Binnable, SmallBins.SmallsOk, SmallBins.SmallReachable,
        SmallBins.SmallMembers, TreesOk, Reachable, Touched, Tame, TreeLinks.Queue, Trie.LargeSize, HeadsKept;
      ghost var m, b := arena.mem, Bins();
      CoreBins(m, b, h, arena.leastAddr);
      SmallBinnable(m, b, h, arena.leastAddr, p);
      ReuseOrder.RecordPut(m, b, h, arena.leastAddr, run, p, s);
      small.Insert(p, s, h.C);
      run := run + [ReuseOrder.Binned(p, s)];
      AfterSmallInsert(m, arena.mem, b, Bins(), h, arena.leastAddr, p);
    }

    /** insert_large_chunk */
    method InsertLargeChunk(p: int, s: nat)
      requires Sound() && p in h.C && s == h.C[p] && s >= 256 && Binnable(Bins(), h, p)
      modifies this`run, small, tree, arena`mem
      ensures Sound() && Binned(Bins()) == old(Binned(Bins())) + {p}
      ensures ContentsOf(Bins()) == Put(old(ContentsOf(Bins())), p, s)
      ensures Tame(old(arena.mem), h, arena.mem, h, {}) && HeadsKept(old(arena.mem), arena.mem, h)
    {
      hide ReuseOrder.Recorded, Core, Binned, Binnable, SmallBins.SmallsOk, SmallBins.SmallReachable,
        SmallBins.SmallMembers, TreesOk, Reachable, Touched, Tame, TreeLinks.Queue, Trie.LargeSize, HeadsKept;
      ghost var m, b := arena.mem, Bins();
      CoreBins(m, b, h, arena.leastAddr);
      SmallBinnable(m, b, h, arena.leastAddr, p);
      ReuseOrder.RecordPut(m, b, h, arena.leastAddr, run, p, s);
      tree.Insert(p, s, h.C);
      run := run + [ReuseOrder.Binned(p, s)];
      AfterLargeInsert(m, arena.mem, b, Bins(), h, arena.leastAddr, p);
    }

    /** insert_chunk */
    method InsertChunk(p: int, s: nat)
      requires Sound() && p in h.C && s == h.C[p] && Binnable(Bins(), h, p)
      modifies this`run, small, tree, arena`mem
      ensures Sound() && Binned(Bins()) == old(Binned(Bins())) + {p}
      ensures ContentsOf(Bins()) == Put(old(ContentsOf(Bins())), p, s)
      ensures Tame(old(arena.mem), h, arena.mem, h, {}) && HeadsKept(old(arena.mem), arena.mem, h)
    {
      hide ReuseOrder.Recorded, Core, Binned, Binnable, Tame, HeadsKept, Put;
      if IsSmall(s) {
        InsertSmallChunk(p, s);
      } else {
        InsertLargeChunk(p, s);
      }
    }

    /** unlink_small_chunk */
    method UnlinkSmallChunk(p: int, s: nat)
      requires Sound() && p in h.C && s == h.C[p] && s < 256 && p in Binned(Bins())
      modifies this`run, small, tree, arena`mem
      ensures Sound() && Binned(Bins()) == old(Binned(Bins())) - {p}
      ensures ContentsOf(Bins()) == Take(old(ContentsOf(Bins())), p, s)
      ensures Tame(old(arena.mem), h, arena.mem, h, {}) && HeadsKept(old(arena.mem), arena.mem, h)
    {
      hide ReuseOrder.Recorded, Core, Binned, HeadsKept, SmallBins.SmallsOk, SmallBins.SmallReachable,
        SmallBins.SmallMembers, TreesOk, Reachable, Touched, Tame, TreeLinks.Queue, Trie.LargeSize;
      ghost var m, b := arena.mem, Bins();
      CoreBins(m, b, h, arena.leastAddr);
      SmallPlace(m, b, h.C, arena.leastAddr, p);
      ReuseOrder.RecordTake(b, run, p, s);
      small.Unlink(p, s, h.C);
      run := run + [ReuseOrder.Unbinned(p, s)];
      AfterSmallUnlink(m, arena.mem, b, Bins(), h, arena.leastAddr, s / 8, IndexOf(b.stacks[s / 8], p));
    }

    /** unlink_large_chunk */
    method UnlinkLargeChunk(p: int, s: nat)
      requires Sound() && p in h.C && s == h.C[p] && s >= 256 && p in Binned(Bins())
      modifies this`run, small, tree, arena`mem
      ensures Sound() && Binned(Bins()) == old(Binned(Bins())) - {p}
      ensures ContentsOf(Bins()) == Take(old(ContentsOf(Bins())), p, s)
      ensures Tame(old(arena.mem), h, arena.mem, h, {}) && HeadsKept(old(arena.mem), arena.mem, h)
    {
      hide ReuseOrder.Recorded, Core, Binned, HeadsKept, SmallBins.SmallsOk, SmallBins.SmallReachable,
        SmallBins.SmallMembers, TreesOk, Reachable, Touched, Tame, Trie.LargeSize;
      ghost var m, b := arena.mem, Bins();
      CoreBins(m, b, h, arena.leastAddr);
      LargePlace(m, b, h.C, arena.leastAddr, p);
      ReuseOrder.RecordTake(b, run, p, s);
      tree.Unlink(p, s, h.C);
      run := run + [ReuseOrder.Unbinned(p, s)];
      AfterLargeUnlink(m, arena.mem, b, Bins(), h, arena.leastAddr, s, IndexOf(b.fifo[s], p));
    }

    /** unlink_chunk */
    method UnlinkChunk(p: int, s: nat)
      requires Sound() && p in h.C && s == h.C[p] && p in Binned(Bins())
      modifies this`run, small, tree, arena`mem
      ensures Sound() && Binned(Bins()) == old(Binned(Bins())) - {p}
      ensures ContentsOf(Bins()) == Take(old(ContentsOf(Bins())), p, s)
      ensures Tame(old(arena.mem), h, arena.mem, h, {}) && HeadsKept(old(arena.mem), arena.mem, h)
    {
      hide ReuseOrder.Recorded, Core, Binned, HeadsKept, Tame, Take;
      if IsSmall(s) {
        UnlinkSmallChunk(p, s);
      } else {
        UnlinkLargeChunk(p, s);
      }
    }

    /** unlink_first_small_chunk */
    method UnlinkFirstSmallChunk(p: int, i: Index)
      requires Sound() && small.stacks[i] != [] && p == small.stacks[i][0]
      modifies this`run, small, tree, arena`mem
      ensures Sound() && Binned(Bins()) == old(Binned(Bins())) - {p} && p in old(Binned(Bins())) && p in h.C
        && h.C[p] == 8 * i
      ensures ContentsOf(Bins()) == Take(old(ContentsOf(Bins())), p, 8 * i)
      ensures Tame(old(arena.mem), h, arena.mem, h, {}) && HeadsKept(old(arena.mem), arena.mem, h)
    {
      hide ReuseOrder.Recorded, Core, Binned, HeadsKept, SmallBins.SmallsOk, SmallBins.SmallReachable,
        SmallBins.SmallMembers, TreesOk, Reachable, Touched, Tame, TreeLinks.Queue, Trie.LargeSize,
        SmallBins.StacksPlaced;
      ghost var m, b := arena.mem, Bins();
      CoreBins(m, b, h, arena.leastAddr);
      FirstPlace(m, b, h.C, arena.leastAddr, i);
      ReuseOrder.RecordTake(b, run, p, 8 * i);
      small.UnlinkFirst(p, i, h.C);
      run := run + [ReuseOrder.Unbinned(p, 8 * i)];
      assert Without(b.stacks[i], 0) == b.stacks[i][1..];
      AfterSmallUnlink(m, arena.mem, b, Bins(), h, arena.leastAddr, i, 0);
    }

    // -------------------------------------------------------------------------------------
    // malloc

    /** replace_dv */
    method ReplaceDv(p: int, s: int)
      requires Holds({p}) && p in h.C && h.C[p] == s && 0 <= dvsize < 256
      modifies this, small, tree, arena`mem
      ensures Valid() && h == old(h) && Fields() == old(Fields()).(dv := p, dvsize := s)
      ensures ContentsOf(Bins()) == if old(dvsize) != 0 then Put(old(ContentsOf(Bins())), old(dv), old(dvsize))
                                    else old(ContentsOf(Bins()))
      ensures Tame(old(arena.mem), h, arena.mem, h, {}) && HeadsKept(old(arena.mem), arena.mem, h)
    {
      hide ReuseOrder.Recorded, Core, Binned, Binnable, Tame, HeadsKept, Put, Spare, MarksOk;
      ghost var m, b, k := arena.mem, Bins(), Fields();
      DvSize(m, b, h, k, arena.leastAddr, {p});
      var dvs := dvsize;
      if dvs != 0 {
        MayBeBinned(m, b, h, k, arena.leastAddr, {p}, dv);
        DvReleased(m, b, h, k, arena.leastAddr, {p});
        InsertSmallChunk(dv, dvs);
        Stored(m, arena.mem, b, Bins(), h, k.(dv := 0, dvsize := 0), arena.leastAddr, {p} + {dv}, dv);
        assert {p} + {dv} - {dv} == {p};
      } else {
        SameMemory(m, h);
      }
      DvAdopted(arena.mem, Bins(), h, k.(dv := 0, dvsize := 0), arena.leastAddr, {p}, p);
      assert {p} - {p} == {};
      dvsize := s;
      dv := p;
    }

    /** The common end of tmalloc_small and of dlmalloc's smallbin search: use p whole, or cut it and make
        the rest dv. */
    method ServeAndReplaceDv(p: int, nb: int, rsize: int)
      requires Holds({p}) && p in h.C && h.C[p] == nb + rsize && rsize >= 0 && 0 <= dvsize < 256
      requires nb % 16 == 0 && nb >= MIN_CHUNK_SIZE
      modifies this, small, tree, arena`mem
      ensures Valid() && State() == UseSpare(old(State()), p, nb, true)
      ensures Served(old(arena.mem), old(h), arena.mem, h, p, nb)
    {
      hide ReuseOrder.Recorded, Core, Binned, Tame, HeadsKept, Put, Spare, MarksOk, One, Two, TagsOk, Head,
        CutWrites, Served;
      ghost var m, b, k, h0 := arena.mem, Bins(), Fields(), h;
      SizesOf(m, b, h, k, arena.leastAddr, {p}, p);
      if rsize < MIN_CHUNK_SIZE {
        arena.mem := SetInuseAndPinuse(arena.mem, p, rsize + nb);
        TakeWhole(m, b, h, k, arena.leastAddr, {p}, p);
        ServedWhole(m, h, arena.mem, p, nb);
        h := One(h, p, p + h.C[p], true);
        assert {p} - {p} == {};
      } else {
        arena.mem := SetSizeInuse(arena.mem, p, nb);
        var r := p + nb;
        arena.mem := SetSizeFree(arena.mem, r, rsize);
        ghost var m1 := arena.mem;
        CutBothWays(m, p, nb, nb + rsize);
        SplitFree(m, m1, b, h, k, arena.leastAddr, {p}, p, nb);
        assert Rd(m1, p + 8) == Head(nb, true, true) by { CutHead(m, m1, p, nb, nb + rsize); }
        ServedPart(m, h, m1, p, nb);
        TwoShape(h, p, r, p + h.C[p], false);
        h := Two(h, p, r, p + h.C[p], false);
        assert {p} - {p} + {r} == {r};
        ReplaceDv(r, rsize);
        SameMemory(m, h0);
        ServedAround(m, m, h0, m1, arena.mem, h, p, nb);
      }
    }

    /** tmalloc_small: the oldest of the smallest chunks in the trees serves the request. */
    method TmallocSmall(nb: nat) returns (mem: int, ghost s: nat)
      requires Valid() && tree.treemap != 0 && nb % 16 == 0 && MIN_CHUNK_SIZE <= nb < 256 && 0 <= dvsize < nb
      modifies this, small, tree, arena`mem
      ensures s in old(tree.fifo) && old(tree.fifo)[s] != [] && (forall t | t in old(tree.fifo) :: s <= t)
      ensures var p := old(tree.fifo)[s][0];
        && mem == p + 16 && p in old(h).C && Valid() && State() == UseBinned(old(State()), p, nb, true)
        && Served(old(arena.mem), old(h), arena.mem, h, p, nb)
    {
      hide ReuseOrder.Recorded, Core, Binned, Tame, HeadsKept, Put, Spare, MarksOk, Served, Take, UseSpare,
        TreesOk, Reachable;
      ghost var m, b, k, h0 := arena.mem, Bins(), Fields(), h;
      CoreBins(m, b, h, arena.leastAddr);
      var v, rsize;
      v, rsize, s := tree.FindSmallest(nb, h.C);
      OldestPlace(m, b, h.C, arena.leastAddr, s);
      if v >= arena.leastAddr && v < v + nb {
        UnlinkLargeChunk(v, rsize + nb);
        Fetched(m, arena.mem, b, Bins(), h, k, arena.leastAddr, {}, v);
        assert {} + {v} == {v};
        ghost var m1 := arena.mem;
        ServeAndReplaceDv(v, nb, rsize);
        SameMemory(arena.mem, h);
        ServedAround(m, m1, h0, arena.mem, arena.mem, h, v, nb);
        return v + 16, s;
      } else {
        assert false;  // CORRUPTION_ERROR_ACTION
      }
    }

    /** The end of tmalloc_large: use p whole, or cut it and bin the rest. */
    method ServeAndBin(p: int, nb: int, rsize: int)
      requires Holds({p}) && p in h.C && h.C[p] == nb + rsize && rsize >= 0 && 0 <= dvsize
      requires nb % 16 == 0 && nb >= MIN_CHUNK_SIZE
      modifies this, small, tree, arena`mem
      ensures Valid() && State() == UseSpare(old(State()), p, nb, false)
      ensures Served(old(arena.mem), old(h), arena.mem, h, p, nb)
    {
      hide ReuseOrder.Recorded, Core, Binned, Tame, HeadsKept, Put, Spare, MarksOk, One, Two, TagsOk, Head,
        CutWrites, Served, Binnable, HeapOk;
      ghost var m, b, k, h0 := arena.mem, Bins(), Fields(), h;
      SizesOf(m, b, h, k, arena.leastAddr, {p}, p);
      if rsize < MIN_CHUNK_SIZE {
        arena.mem := SetInuseAndPinuse(arena.mem, p, rsize + nb);
        TakeWhole(m, b, h, k, arena.leastAddr, {p}, p);
        ServedWhole(m, h, arena.mem, p, nb);
        h := One(h, p, p + h.C[p], true);
        assert {p} - {p} == {};
      } else {
        arena.mem := SetSizeInuse(arena.mem, p, nb);
        var r := p + nb;
        arena.mem := SetSizeFree(arena.mem, r, rsize);
        ghost var m1 := arena.mem;
        CutBothWays(m, p, nb, nb + rsize);
        SplitFree(m, m1, b, h, k, arena.leastAddr, {p}, p, nb);
        assert Rd(m1, p + 8) == Head(nb, true, true) by { CutHead(m, m1, p, nb, nb + rsize); }
        ServedPart(m, h, m1, p, nb);
        TwoShape(h, p, r, p + h.C[p], false);
        h := Two(h, p, r, p + h.C[p], false);
        assert {p} - {p} + {r} == {r};
        MayBeBinned(m1, b, h, k, arena.leastAddr, {r}, r);
        InsertChunk(r, rsize);
        Stored(m1, arena.mem, b, Bins(), h, k, arena.leastAddr, {r}, r);
        assert {r} - {r} == {};
        SameMemory(m, h0);
        ServedAround(m, m, h0, m1, arena.mem, h, p, nb);
      }
    }

    /** tmalloc_large: the oldest of the best fitting chunks in the trees serves the request, unless dv
        fits at least as well. */
    method TmallocLarge(nb: nat) returns (mem: int, ghost s: nat)
      requires Valid() && Trie.LargeSize(nb) && nb % 16 == 0 && 0 <= dvsize < WORD
      modifies this, small, tree, arena`mem
      ensures mem == 0 ==> Valid() && State() == old(State()) && arena.mem == old(arena.mem)
      ensures mem == 0 ==> forall t | t in old(tree.fifo) :: t < nb || nb <= dvsize <= t
      ensures mem != 0 ==>
        && s in old(tree.fifo) && old(tree.fifo)[s] != [] && (forall t | t in old(tree.fifo) :: t < nb || s <= t)
        && nb <= s && (nb <= old(dvsize) ==> s < old(dvsize))
        && var p := old(tree.fifo)[s][0];
           && mem == p + 16 && p in old(h).C && old(h).C[p] == s
           && Valid() && State() == UseBinned(old(State()), p, nb, false)
           && Served(old(arena.mem), old(h), arena.mem, h, p, nb)
    {
      hide ReuseOrder.Recorded, Core, Binned, Tame, HeadsKept, Put, Spare, MarksOk, Served, Take, UseSpare, TreesOk,
        Reachable;
      ghost var m, b, k, h0 := arena.mem, Bins(), Fields(), h;
      CoreBins(m, b, h, arena.leastAddr);
      var v, rsize;
      v, rsize, s := tree.FindBestFit(nb, h.C);
      if v != 0 {
        OldestPlace(m, b, h.C, arena.leastAddr, s);
      }
      if v != 0 && rsize < Wrap(dvsize - nb) {
        if v >= arena.leastAddr && v < v + nb {
          UnlinkLargeChunk(v, rsize + nb);
          Fetched(m, arena.mem, b, Bins(), h, k, arena.leastAddr, {}, v);
          assert {} + {v} == {v};
          ghost var m1 := arena.mem;
          ServeAndBin(v, nb, rsize);
          SameMemory(arena.mem, h);
          ServedAround(m, m1, h0, arena.mem, arena.mem, h, v, nb);
          HighAddress(m, b, h0, arena.leastAddr, v);
          return v + 16, s;
        } else {
          assert false;  // CORRUPTION_ERROR_ACTION
        }
      }
      return 0, 0;
    }

    /** dlmalloc, second step: the request is cut from dv, or takes all of it. */
    method ServeFromDv(nb: int) returns (mem: int)
      requires Valid() && nb % 16 == 0 && MIN_CHUNK_SIZE <= nb <= dvsize
      modifies this, arena`mem
      ensures Valid() && mem == old(dv) + 16 && State() == UseDv(old(State()), nb)
      ensures Served(old(arena.mem), old(h), arena.mem, h, old(dv), nb)
    {
      hide ReuseOrder.Recorded, Core, Binned, Tame, HeadsKept, Spare, MarksOk, One, Two, TagsOk, Head,
        CutWrites, Served, HeapOk;
      ghost var m, b, k, h0 := arena.mem, Bins(), Fields(), h;
      DvSize(m, b, h, k, arena.leastAddr, {});
      SizesOf(m, b, h, k, arena.leastAddr, {}, dv);
      DvIsNotTop(m, b, h, k, arena.leastAddr);
      var rsize := dvsize - nb;
      var p := dv;
      if rsize >= MIN_CHUNK_SIZE {
        var r := p + nb;
        dv := r;
        dvsize := rsize;
        arena.mem := SetSizeFree(arena.mem, r, rsize);
        arena.mem := SetSizeInuse(arena.mem, p, nb);
        CutBothWays(m, p, nb, nb + rsize);
        SplitFree(m, arena.mem, b, h, k, arena.leastAddr, {}, p, nb);
        assert Rd(arena.mem, p + 8) == Head(nb, true, true) by { CutHead(m, arena.mem, p, nb, nb + rsize); }
        ServedPart(m, h, arena.mem, p, nb);
        h := Two(h, p, r, p + h.C[p], false);
      } else {
        var dvs := dvsize;
        dvsize := 0;
        dv := 0;
        arena.mem := SetInuseAndPinuse(arena.mem, p, dvs);
        TakeWhole(m, b, h, k, arena.leastAddr, {}, p);
        assert {} - {p} == {};
        ServedWhole(m, h, arena.mem, p, nb);
        h := One(h, p, p + h.C[p], true);
      }
      return p + 16;
    }

    /** dlmalloc, third step, and the end of sys_alloc: the request is cut from top. */
    method ServeFromTop(nb: int) returns (mem: int)
      requires Linked() && nb % 16 == 0 && MIN_CHUNK_SIZE <= nb < topsize
      modifies this, arena`mem
      ensures mem == old(top) + 16 && topsize == old(topsize) - nb && top == old(top) + nb
        && Rd(arena.mem, top + 8) == WithPinuse(topsize)
      ensures old(Valid()) ==> Valid() && State() == UseTop(old(State()), nb)
      ensures old(Valid()) ==> Served(old(arena.mem), old(h), arena.mem, h, old(top), nb)
    {
      hide ReuseOrder.Recorded, Core, Binned, Tame, HeadsKept, Spare, MarksOk, Two, TagsOk, Head, Served, WithPinuse;
      ghost var m, b, k, h0, valid := arena.mem, Bins(), Fields(), h, Valid();
      topsize := topsize - nb;
      var rsize := topsize;
      var p := top;
      var r := p + nb;
      top := r;
      arena.mem := arena.mem[r + 8 := WithPinuse(rsize)];
      arena.mem := SetSizeInuse(arena.mem, p, nb);
      PinuseTwice(rsize);
      if valid {
        TopHeld(m, b, h, k, arena.leastAddr);
        SizesOf(m, b, h, k, arena.leastAddr, {}, p);
        TopSize(m, b, h, k, arena.leastAddr, {});
        LessSixteens(old(topsize), nb);
        TopHead(rsize);
        SplitTop(m, arena.mem, b, h, k, arena.leastAddr, nb);
        ServedPart(m, h, arena.mem, p, nb);
        h := Two(h, p, r, p + h.C[p], false);
      }
      return p + 16;
    }

    /** dlmalloc, first step for small requests, when the bin of nb is not empty. */
    method ServeExactly(nb: nat, i: Index) returns (mem: int)
      requires Valid() && 8 * i == nb && nb % 16 == 0 && nb >= MIN_CHUNK_SIZE
        && Marked(small.smallmap, i) && 0 <= dvsize
      modifies this, small, tree, arena`mem
      ensures old(small.stacks)[i] != []
      ensures var p := old(small.stacks)[i][0];
        && mem == p + 16 && p in old(h).C && old(h).C[p] == nb && Valid()
        && State() == UseBinned(old(State()), p, nb, true)
        && Served(old(arena.mem), old(h), arena.mem, h, p, nb)
    {
      hide ReuseOrder.Recorded, Core, Binned, Tame, HeadsKept, Put, Spare, MarksOk, Served, Take, One, TagsOk, Head,
        SmallBins.SmallsOk, SmallBins.SmallReachable, TreesOk, Reachable, Marked;
      ghost var m, b, k, h0 := arena.mem, Bins(), Fields(), h;
      CoreBins(m, b, h, arena.leastAddr);
      var p := small.First(i, h.C);
      UnlinkFirstSmallChunk(p, i);
      Fetched(m, arena.mem, b, Bins(), h, k, arena.leastAddr, {}, p);
      assert {} + {p} == {p} && {p} - {p} == {};
      ghost var m1 := arena.mem;
      SizesOf(m1, Bins(), h, k, arena.leastAddr, {p}, p);
      arena.mem := SetInuseAndPinuse(arena.mem, p, 8 * i);
      TakeWhole(m1, Bins(), h, k, arena.leastAddr, {p}, p);
      ServedWhole(m1, h, arena.mem, p, nb);
      h := One(h, p, p + h.C[p], true);
      SameMemory(arena.mem, h);
      ServedAround(m, m1, h0, arena.mem, arena.mem, h, p, nb);
      return p + 16;
    }

    /** dlmalloc, when a later smallbin serves: its front chunk is cut, and the rest becomes dv. */
    method ServeFromSmallbin(nb: nat, i: Index) returns (mem: int)
      requires Valid() && nb < 8 * i && nb % 16 == 0 && nb >= MIN_CHUNK_SIZE && Marked(small.smallmap, i)
        && 0 <= dvsize < nb
      modifies this, small, tree, arena`mem
      ensures old(small.stacks)[i] != []
      ensures var p := old(small.stacks)[i][0];
        && mem == p + 16 && p in old(h).C && old(h).C[p] == 8 * i && Valid()
        && State() == UseBinned(old(State()), p, nb, true)
        && Served(old(arena.mem), old(h), arena.mem, h, p, nb)
    {
      hide ReuseOrder.Recorded, Core, Binned, Tame, HeadsKept, Put, Spare, MarksOk, Served, Take, UseSpare,
        SmallBins.SmallsOk, SmallBins.SmallReachable, TreesOk, Reachable, Marked;
      ghost var m, b, k, h0 := arena.mem, Bins(), Fields(), h;
      CoreBins(m, b, h, arena.leastAddr);
      var p := small.First(i, h.C);
      UnlinkFirstSmallChunk(p, i);
      Fetched(m, arena.mem, b, Bins(), h, k, arena.leastAddr, {}, p);
      assert {} + {p} == {p};
      ghost var m1 := arena.mem;
      ServeAndReplaceDv(p, nb, 8 * i - nb);
      SameMemory(arena.mem, h);
      ServedAround(m, m1, h0, arena.mem, arena.mem, h, p, nb);
      return p + 16;
    }

    /** The search of dlmalloc for a small request, in the bins only. */
    method SmallRequest(nb: nat) returns (mem: int)
      requires Valid() && nb % 16 == 0 && MIN_CHUNK_SIZE <= nb <= 240 && 0 <= dvsize
      modifies this, small, tree, arena`mem
      ensures mem != 0 ==> Valid() && ServesSmall(old(State()), nb, State(), mem - 16)
                           && Served(old(arena.mem), old(h), arena.mem, h, mem - 16, nb)
      ensures mem == 0 ==>
        && Valid() && State() == old(State()) && arena.mem == old(arena.mem)
        && nb % 8 == 0 && small.stacks[nb / 8] == []
        && (nb <= dvsize || (tree.fifo == map[] && forall j: Index | nb <= 8 * j :: small.stacks[j] == []))
    {
      hide ReuseOrder.Recorded, Core, Binned, Tame, HeadsKept, Put, Spare, MarksOk, Served, UseBinned, BinsOk, Marked,
        SmallBits, LeftSmallBits, LeastIndex, ServesSmall;
      ghost var m, b, h0, w, C := arena.mem, Bins(), h, State(), h.C;
      CoreBins(m, b, h, arena.leastAddr);
      SmallSearch(m, b, C, arena.leastAddr, nb);
      NoTrees(m, b, C, arena.leastAddr);
      mem := 0;
      var idx: Index := nb / 8;
      var smallbits := SmallBits(small.smallmap, idx);
      if smallbits & 3 != 0 {
        idx := idx + ((!smallbits) & 1) as int;
        mem := ServeExactly(nb, idx);
        HighAddress(m, b, h0, arena.leastAddr, mem - 16);
        FromBin(w, nb, State(), idx);
      } else if nb > dvsize {
        if smallbits != 0 {
          var i := LeastIndex(LeftSmallBits(small.smallmap, idx));
          mem := ServeFromSmallbin(nb, i);
          HighAddress(m, b, h0, arena.leastAddr, mem - 16);
          FromBin(w, nb, State(), i);
        } else if tree.treemap != 0 {
          ghost var s;
          mem, s := TmallocSmall(nb);
          OldestPlace(m, b, C, arena.leastAddr, s);
          FromTree(w, nb, State(), s);
        }
      }
    }

    /** The search of dlmalloc for a large request, in the trees only. */
    method LargeRequest(nb: nat) returns (mem: int)
      requires Valid() && Trie.LargeSize(nb) && nb % 16 == 0 && 0 <= dvsize < WORD
      modifies this, small, tree, arena`mem
      ensures mem != 0 ==> Valid() && ServesLarge(old(State()), nb, State(), mem - 16)
                           && Served(old(arena.mem), old(h), arena.mem, h, mem - 16, nb)
      ensures mem == 0 ==> Valid() && State() == old(State()) && arena.mem == old(arena.mem)
                           && forall t | t in tree.fifo :: t < nb || nb <= dvsize <= t
    {
      hide ReuseOrder.Recorded, Core, Binned, Tame, Spare, MarksOk, Served, UseBinned, BinsOk, ServesLarge,
        Trie.LargeSize, HeapOk;
      ghost var w := State();
      HeapBinsOk(arena.mem, Bins(), h, Fields(), arena.leastAddr, {});
      NoTrees(arena.mem, Bins(), h.C, arena.leastAddr);
      mem := 0;
      if tree.treemap != 0 {
        ghost var s;
        mem, s := TmallocLarge(nb);
        if mem != 0 {
          FromBestFit(w, nb, State(), s);
        }
      }
    }

    /** dlmalloc, when no binned chunk is used: from dv, else from top, else not at all. */
    method ServeOtherwise(nb: nat) returns (mem: int)
      requires Valid() && ((nb % 16 == 0 && nb >= MIN_CHUNK_SIZE) || nb == MAX_SIZE_T)
      modifies this, arena`mem
      ensures Valid() && ServesOtherwise(old(State()), nb, State(), if mem == 0 then 0 else mem - 16)
      ensures mem != 0 ==> nb < MAX_SIZE_T && Served(old(arena.mem), old(h), arena.mem, h, mem - 16, nb)
      ensures mem == 0 ==> State() == old(State()) && arena.mem == old(arena.mem) && nb > dvsize && nb >= topsize
    {
      hide ReuseOrder.Recorded, Core, Binned, Tame, HeadsKept, Spare, MarksOk, Served, UseDv, UseTop;
      ghost var m, b, k := arena.mem, Bins(), Fields();
      DvSize(m, b, h, k, arena.leastAddr, {});
      TopSize(m, b, h, k, arena.leastAddr, {});
      mem := 0;
      if nb <= dvsize {
        HighAddress(m, b, h, arena.leastAddr, dv);
        mem := ServeFromDv(nb);
      } else if nb < topsize {
        mem := ServeFromTop(nb);
      }
    }

    /** dlmalloc up to the call of sys_alloc: mem is 0 when the heap has nothing that fits, and then nb
        is the chunk size that sys_alloc is asked for. */
    method Malloc(bytes: nat) returns (mem: int, nb: nat)
      requires Valid() && bytes < WORD
      modifies this, small, tree, arena`mem
      ensures nb == SizeFor(bytes) && Valid() && 0 <= old(dvsize)
      ensures mem == 0 ==>
        State() == old(State()) && arena.mem == old(arena.mem) && nb > dvsize && nb >= topsize && NoneFits(h, nb)
      ensures mem != 0 ==> bytes < MAX_REQUEST && Served(old(arena.mem), old(h), arena.mem, h, mem - 16, nb)
      ensures bytes < MAX_REQUEST ==>
        var p := if mem == 0 then 0 else mem - 16;
        if nb < 256 then ServesSmall(old(State()), nb, State(), p) else ServesLarge(old(State()), nb, State(), p)
      ensures mem != 0 ==>
        ServesOtherwise(old(State()), nb, State(), mem - 16) || ReuseOrder.IsInTurn(old(run), nb, mem - 16)
    {
      hide ReuseOrder.Recorded, ReuseOrder.IsInTurn, Core, Binned, Tame, HeadsKept, Put, Spare, MarksOk, Served,
        UseBinned, BinsOk, UseDv, UseTop, Request2Size, PadRequest, SizeFor, Trie.LargeSize, ServesOtherwise, HeapOk,
        NoneFits;
      ghost var w, run0 := State(), run;
      DvSize(arena.mem, Bins(), h, Fields(), arena.leastAddr, {});
      mem := 0;
      if bytes <= MAX_SMALL_REQUEST {
        nb := Request2Size(bytes);
        SmallRequestSize(bytes);
        SizeForFits(bytes);
        mem := SmallRequest(nb);
        if mem != 0 {
          ReuseOrder.SmallInTurn(run0, w, nb, State(), mem - 16);
          return;
        }
      } else if bytes >= MAX_REQUEST {
        nb := MAX_SIZE_T;
        TooLarge(bytes);
      } else {
        nb := PadRequest(bytes);
        SizeForFits(bytes);
        LargeRequestSize(bytes);
        mem := LargeRequest(nb);
        if mem != 0 {
          ReuseOrder.LargeInTurn(run0, w, nb, State(), mem - 16);
          return;
        }
      }
      mem := ServeOtherwise(nb);
      if mem == 0 { NothingFits(arena.mem, Bins(), h, Fields(), arena.leastAddr, nb); }
    }

    // -------------------------------------------------------------------------------------
    // free

    /** set_free_with_pinuse in front of a chunk in use, and the binning of the result. */
    method FreeAlone(p: int, psize: int, next: int, ghost X: set<int>, ghost p0: int)
      requires p0 in h.C && h.C[p0] >= 0 && p <= p0 && next == p0 + h.C[p0] && next in h.C && h.C[next] >= 0
      requires psize == next - p && psize > 0 && next in h.U && p != dv
      requires Linked() && Front(arena.mem, Bins(), h, Fields(), arena.leastAddr, X, {}, p, p0)
      modifies this, small, tree, arena`mem
      ensures Valid() && FreesForward(old(State()), p, p0, State()) && Tame(old(arena.mem), old(h), arena.mem, h, {p0})
    {
      hide ReuseOrder.Recorded, Core, Binned, Tame, HeadsKept, Put, Take, Spare, MarksOk, One, HeapOk, Front,
        Binnable, Pinuse;
      ghost var m, b, k, h0 := arena.mem, Bins(), Fields(), h;
      arena.mem := SetFreeWithPinuse(arena.mem, p, psize, next);
      FreeBeforeUsed(m, arena.mem, b, h, k, arena.leastAddr, X, p, p0);
      OneShape(h, p, next, false);
      h := One(h, p, next, false);
      BinFreed(m, h0, k, p, psize, p0);
    }

    /** The end of dlfree and dispose_chunk: the merged chunk goes into its bin. */
    method BinFreed(ghost m: Mem, ghost h0: Shape, ghost k: Marks, p: int, psize: int, ghost p0: int)
      requires Linked() && HeapOk(arena.mem, Bins(), h, k, arena.leastAddr, {p}) && k == Fields()
      requires p in h.C && h.C[p] == psize && Tame(m, h0, arena.mem, h, {p0})
      modifies this`run, small, tree, arena`mem
      ensures Valid() && ContentsOf(Bins()) == Put(old(ContentsOf(Bins())), p, psize) && psize >= 0
      ensures Tame(m, h0, arena.mem, h, {p0})
    {
      hide ReuseOrder.Recorded, Core, Binned, Tame, HeadsKept, Put, Spare, MarksOk, HeapOk, Binnable;
      ghost var m1, b := arena.mem, Bins();
      MayBeBinned(m1, b, h, k, arena.leastAddr, {p}, p);
      InsertChunk(p, psize);
      Stored(m1, arena.mem, b, Bins(), h, k, arena.leastAddr, {p}, p);
      assert {p} - {p} == {};
      TameTwice(m, h0, m1, h, arena.mem, h, {p0}, {});
      assert {p0} + {} == {p0};
    }

    /** The chunk behind is top: the freed space becomes part of it. */
    method FreeToTop(p: int, psize: int, next: int, ghost X: set<int>, ghost p0: int) returns (tsize: int)
      requires p0 in h.C && h.C[p0] >= 0 && p <= p0 && next == p0 + h.C[p0] && next in h.C && h.C[next] >= 0
      requires psize == next - p && next !in h.U && next in h.C
      requires Linked() && Front(arena.mem, Bins(), h, Fields(), arena.leastAddr, X, {}, p, p0)
      requires next == top && next == h.top && topsize == h.C[next]
      modifies this, arena`mem
      ensures Valid() && FreesForward(old(State()), p, p0, State()) && Tame(old(arena.mem), old(h), arena.mem, h, {p0})
      ensures tsize == topsize
    {
      hide ReuseOrder.Recorded, Core, Binned, Tame, Spare, MarksOk, One, HeapOk, Front, Head;
      ghost var m, b, k := arena.mem, Bins(), Fields();
      tsize := topsize + psize;
      topsize := tsize;
      top := p;
      arena.mem := SetTopHead(arena.mem, p, tsize);
      FreeIntoTop(m, arena.mem, b, h, k, arena.leastAddr, X, p, p0);
      if p == dv {
        dv := 0;
        dvsize := 0;
      }
      h := One(h, p, p + tsize, false);
    }

    /** The chunk behind is dv. */
    method FreeToDv(p: int, psize: int, next: int, ghost X: set<int>, ghost p0: int)
      requires p0 in h.C && h.C[p0] >= 0 && p <= p0 && next == p0 + h.C[p0] && next in h.C && h.C[next] >= 0
      requires psize == next - p && next !in h.U && next in h.C
      requires Linked() && Front(arena.mem, Bins(), h, Fields(), arena.leastAddr, X, {}, p, p0)
      requires next == dv && dv != top && dvsize == h.C[next]
      modifies this, arena`mem
      ensures Valid() && FreesForward(old(State()), p, p0, State()) && Tame(old(arena.mem), old(h), arena.mem, h, {p0})
    {
      hide ReuseOrder.Recorded, Core, Binned, Tame, Spare, MarksOk, One, HeapOk, Front, Head;
      ghost var m, b, k := arena.mem, Bins(), Fields();
      var dsize := dvsize + psize;
      dvsize := dsize;
      dv := p;
      arena.mem := SetSizeFree(arena.mem, p, dsize);
      FreeIntoDv(m, arena.mem, b, h, k, arena.leastAddr, X, p, p0);
      h := One(h, p, p + dsize, false);
    }

    /** The chunk behind is in a bin. */
    method FreeToBinned(p: int, psize: int, next: int, ghost X: set<int>, ghost p0: int) returns (size: int)
      requires p0 in h.C && h.C[p0] >= 0 && p <= p0 && next == p0 + h.C[p0] && next in h.C && h.C[next] >= 0
      requires psize == next - p && next !in h.U && next in h.C
      requires Linked() && Front(arena.mem, Bins(), h, Fields(), arena.leastAddr, X, {}, p, p0)
      requires next != top && next != dv && next in Binned(Bins()) && ChunkSize(Rd(arena.mem, next + 8)) == h.C[next]
      requires psize > 0
      modifies this, small, tree, arena`mem
      ensures Valid() && FreesForward(old(State()), p, p0, State()) && Tame(old(arena.mem), old(h), arena.mem, h, {p0})
      ensures size == psize + old(h).C[next] && size >= 0
    {
      hide ReuseOrder.Recorded, Core, Binned, Tame, HeadsKept, Put, Take, Spare, MarksOk, One, HeapOk, Front, Head;
      ghost var m, b, k, h0 := arena.mem, Bins(), Fields(), h;
      var nsize := ChunkSize(Rd(arena.mem, next + 8));
      size := psize + nsize;
      FrontHeap(m, b, h, k, arena.leastAddr, X, p, p0);
      UnlinkChunk(next, nsize);
      Fetched(m, arena.mem, b, Bins(), h, k, arena.leastAddr, X + {}, next);
      FrontStays(m, arena.mem, b, Bins(), h, k, arena.leastAddr, X, p, p0, next);
      ghost var m1 := arena.mem;
      arena.mem := SetSizeFree(arena.mem, p, size);
      FreeWithNext(m1, arena.mem, Bins(), h, k, arena.leastAddr, X, p, p0, next);
      TameTwice(m, h, m1, h, arena.mem, One(h, p, p + size, false), {}, {p0});
      assert {} + {p0} == {p0};
      OneShape(h, p, p + size, false);
      h := One(h, p, p + size, false);
      if p == dv {
        dvsize := size;
      } else {
        BinFreed(m, h0, k, p, size, p0);
      }
    }

    /** The second half of dlfree and dispose_chunk: merging with what is behind. */
    method FreeForwards(p: int, psize: int, next: int, ghost X: set<int>, ghost p0: int) returns (after: Aftermath)
      requires p0 in h.C && h.C[p0] >= 0 && p <= p0 && next == p0 + h.C[p0] && next in h.C && h.C[next] >= 0
        && (next in h.U ==> p != dv)
      requires psize == next - p && psize > 0
      requires Linked() && Front(arena.mem, Bins(), h, Fields(), arena.leastAddr, X, {}, p, p0)
      modifies this, small, tree, arena`mem
      ensures Valid() && FreesForward(old(State()), p, p0, State()) && Tame(old(arena.mem), old(h), arena.mem, h, {p0})
      ensures after.TopGrew? ==> after.tsize == topsize
      ensures (after.TopGrew? <==> next == old(top)) && (next == old(top) ==> next !in old(h).U)
      ensures after.LargeBinned? <==>
        && next !in {old(top), old(dv)} && p != old(dv)
        && 256 <= (if next in old(h).U then next else next + old(h).C[next]) - p
    {
      hide ReuseOrder.Recorded, Core, Binned, Tame, Spare, MarksOk, One, HeapOk, Front, Pinuse, FreesForward,
        ChunkSize, Cinuse;
      Behind(arena.mem, Bins(), h, Fields(), arena.leastAddr, X, p, p0);
      if !Cinuse(Rd(arena.mem, next + 8)) {
        if next == top {
          var tsize := FreeToTop(p, psize, next, X, p0);
          return TopGrew(tsize);
        } else if next == dv {
          FreeToDv(p, psize, next, X, p0);
          return Quiet;
        } else {
          var wasDv := p == dv;
          var size := FreeToBinned(p, psize, next, X, p0);
          return if wasDv || IsSmall(size) then Quiet else LargeBinned;
        }
      } else {
        FreeAlone(p, psize, next, X, p0);
        return if IsSmall(psize) then Quiet else LargeBinned;
      }
    }

    /** The first half of dlfree and dispose_chunk: merging with the free chunk before.  With dv before and
        a chunk in use behind, that is all there is to do. */
    method FreeBackwards(p0: int, psize0: int, next: int) returns (p: int, psize: int, done: bool, ghost X: set<int>)
      requires Valid() && Owned(h, p0) && psize0 == h.C[p0] && next == p0 + psize0
      modifies this, small, tree, arena`mem
      ensures forall q | q in old(h).C :: old(h).C[q] > 0
      ensures done ==> Valid() && State() == Freed(old(State()), p0) && Tame(old(arena.mem), old(h), arena.mem, h, {p0})
      ensures done ==> next in old(h).U && next != old(top) && FreeStart(old(h), p0) == old(dv) && next in old(h).C
      ensures !done ==>
        && Linked() && h == old(h) && top == old(top) && dv == old(dv)
        && Front(arena.mem, Bins(), h, Fields(), arena.leastAddr, X, {}, p, p0)
        && p == FreeStart(h, p0) && State() == FreeBack(old(State()), p, p0) && psize == next - p && psize > 0
        && (next in h.U ==> p != dv) && Tame(old(arena.mem), h, arena.mem, h, {})
    {
      hide ReuseOrder.Recorded, Core, Binned, Tame, Spare, MarksOk, HeapOk, Pinuse, TagsOk, Head, HeadsKept, Put,
        Take, FreeStart, Joint, Front, FreesForward;
      ghost var m, b, k, w := arena.mem, Bins(), Fields(), State();
      FreeStarts(m, b, h, k, arena.leastAddr, p0);
      p, psize, done, X := p0, psize0, false, {};
      if !Pinuse(Rd(arena.mem, p0 + 8)) {
        var prevsize := Rd(arena.mem, p0);
        var prev := p0 - prevsize;
        psize := psize + prevsize;
        p := prev;
        if prev >= arena.leastAddr {
          if p != dv {
            X := {prev};
            TakePrevious(prev, prevsize, p0);
          } else if Rd(arena.mem, next + 8) % 4 == 3 {
            dvsize := psize;
            arena.mem := SetFreeWithPinuse(arena.mem, p, psize, next);
            FreeBeforeUsed(m, arena.mem, b, h, k, arena.leastAddr, {}, p, p0);
            UsedBehind(m, b, h, k, arena.leastAddr, {}, p, p0);
            h := One(h, p, next, false);
            return p, psize, true, {};
          } else {
          }
        } else {
          assert false;  // CORRUPTION_ERROR_ACTION
        }
      } else {
      }
    }

    /** The free chunk before p0 leaves its bin. */
    method TakePrevious(p: int, prevsize: int, ghost p0: int)
      requires Valid() && p in h.C && prevsize == h.C[p] && p != dv && Joint(h, p, p0) && p < p0 && p in Binned(Bins())
      requires Owned(h, p0) && Pinuse(Rd(arena.mem, p + 8)) && prevsize > 0
      modifies this`run, small, tree, arena`mem
      ensures Linked() && Front(arena.mem, Bins(), h, Fields(), arena.leastAddr, {p}, {}, p, p0)
      ensures State() == FreeBack(old(State()), p, p0) && Tame(old(arena.mem), h, arena.mem, h, {})
    {
      hide ReuseOrder.Recorded, Core, Binned, Tame, Spare, MarksOk, HeapOk, Pinuse, HeadsKept, Take, Joint;
      ghost var m, b, k := arena.mem, Bins(), Fields();
      HeapBinsOk(m, b, h, k, arena.leastAddr, {});
      UnlinkChunk(p, prevsize);
      Fetched(m, arena.mem, b, Bins(), h, k, arena.leastAddr, {}, p);
      FrontTaken(m, arena.mem, Bins(), h, k, arena.leastAddr, p, p0);
    }

    /** dispose_chunk, and dlfree, which checks more about the chunk behind. */
    method DisposeChunk(p0: int, psize0: int, inFree: bool) returns (after: Aftermath)
      requires Valid() && Owned(h, p0) && psize0 == h.C[p0]
      modifies this, small, tree, arena`mem
      ensures forall q | q in old(h).C :: old(h).C[q] > 0
      ensures Valid() && State() == Freed(old(State()), p0) && Tame(old(arena.mem), old(h), arena.mem, h, {p0})
      ensures h.U == old(h).U - {p0} && UsedMap(h) == UsedMap(old(h)) - {p0}
      ensures after.TopGrew? ==> after.tsize == topsize
      ensures (after.TopGrew? <==> GrowsTop(old(State()), p0)) && (after.LargeBinned? <==> BinsLarge(old(State()), p0))
    {
      hide ReuseOrder.Recorded, Core, Binned, Tame, Spare, MarksOk, One, HeapOk, FreeForward, FreeBack, FreeStart,
        Front, UsedMap, Pinuse;
      ghost var m, h0, w := arena.mem, h, State();
      DisposeUse(m, Bins(), w, arena.leastAddr, p0);
      var next := p0 + psize0;
      var p, psize, done;
      ghost var X;
      p, psize, done, X := FreeBackwards(p0, psize0, next);
      if done { return Quiet; }
      ghost var m1 := arena.mem;
      FrontPlace(m1, Bins(), h, Fields(), arena.leastAddr, X, p, p0);
      if if inFree then p < next && Pinuse(Rd(arena.mem, next + 8)) else next >= arena.leastAddr {
        after := FreeForwards(p, psize, next, X, p0);
        TameTwice(m, h0, m1, h0, arena.mem, h, {}, {p0});
        assert {} + {p0} == {p0};
      } else {
        assert false;  // CORRUPTION_ERROR_ACTION, or in dlfree USAGE_ERROR_ACTION
      }
    }

    // -------------------------------------------------------------------------------------
    // realloc in place

    /** The part of try_realloc_chunk and internal_memalign that gives back the end of a chunk. */
    method GiveBackEnd(p: int, nb: int, rsize: int)
      requires Valid() && Owned(h, p) && h.C[p] == nb + rsize
      requires nb >= MIN_CHUNK_SIZE && rsize >= MIN_CHUNK_SIZE && nb % 16 == 0
      modifies this, small, tree, arena`mem
      ensures Valid() && Trims(old(State()), p, nb, p + old(h).C[p], State())
        && Tame(old(arena.mem), old(h), arena.mem, h, {p})
      ensures Owned(h, p) && h.C[p] == nb && Preserved(old(arena.mem), arena.mem, p, nb)
      ensures h.U == old(h).U && UsedMap(h) == UsedMap(old(h))[p := nb]
    {
      hide ReuseOrder.Recorded, Core, Binned, Tame, Spare, MarksOk, Two, HeapOk, Splits, Preserved, Freed,
        SetInuse, UsedMap;
      ghost var m, b, k, h0, w := arena.mem, Bins(), Fields(), h, State();
      UsedFacts(m, b, h, k, arena.leastAddr, {}, p);
      RestOf16(nb, rsize);
      arena.mem := SetInuse(arena.mem, p, nb);
      var r := p + nb;
      arena.mem := SetInuse(arena.mem, r, rsize);
      SplitWrites(m, p, nb, rsize);
      SplitUsed(m, arena.mem, b, h, k, arena.leastAddr, {}, p, nb, rsize);
      SplitUse(m, b, h, k, arena.leastAddr, p, r);
      SplitBack(UsedMap(h), p, r, nb, rsize);
      h := Two(h, p, r, p + h.C[p], true);
      ghost var m1, h1 := arena.mem, h;
      var after := DisposeChunk(r, rsize, false);
      RestFreed(m, h0, m1, h1, arena.mem, h, p, r, nb);
    }

    /** try_realloc_chunk, when the chunk behind is top. */
    method GrowToTop(p: int, nb: int, oldsize: int)
      requires Valid() && Owned(h, p) && oldsize == h.C[p] && p + oldsize == top
        && oldsize < nb < oldsize + topsize && nb % 16 == 0
      modifies this, arena`mem
      ensures Valid() && Resizes(old(State()), p, nb, State(), true) && Tame(old(arena.mem), old(h), arena.mem, h, {p})
      ensures h.U == old(h).U && Owned(h, p) && h.C[p] == nb && Preserved(old(arena.mem), arena.mem, p, oldsize)
    {
      hide ReuseOrder.Recorded, Core, Binned, Tame, Spare, Two, Preserved, SetInuse;
      ghost var m, b, k := arena.mem, Bins(), Fields();
      UsedFacts(m, b, h, k, arena.leastAddr, {}, p);
      var newsize := oldsize + topsize;
      var newtopsize := newsize - nb;
      var newtop := p + nb;
      arena.mem := SetInuse(arena.mem, p, nb);
      arena.mem := SetTopHead(arena.mem, newtop, newtopsize);
      top := newtop;
      topsize := newtopsize;
      GrowIntoTop(m, arena.mem, b, h, k, arena.leastAddr, p, nb);
      h := Two(h, p, newtop, p + newsize, false);
    }

    /** try_realloc_chunk, when the chunk behind is dv and keeps a rest. */
    method GrowToPartOfDv(p: int, nb: int, oldsize: int, dsize: int)
      requires Valid() && Owned(h, p) && oldsize == h.C[p] && p + oldsize == dv && dv != top && nb % 16 == 0
      requires oldsize < nb && dsize == oldsize + dvsize - nb >= MIN_CHUNK_SIZE
      modifies this, arena`mem
      ensures Valid() && Resizes(old(State()), p, nb, State(), true) && Tame(old(arena.mem), old(h), arena.mem, h, {p})
      ensures h.U == old(h).U && Owned(h, p) && h.C[p] == nb && Preserved(old(arena.mem), arena.mem, p, oldsize)
    {
      hide ReuseOrder.Recorded, Core, Binned, Tame, Spare, Two, One, Preserved, SetInuse, SetSizeFree, ClearPinuse;
      ghost var m, b, k := arena.mem, Bins(), Fields();
      UsedFacts(m, b, h, k, arena.leastAddr, {}, p);
      var r := p + nb;
      var n := r + dsize;
      arena.mem := SetInuse(arena.mem, p, nb);
      arena.mem := SetSizeFree(arena.mem, r, dsize);
      arena.mem := ClearPinuse(arena.mem, n);
      dvsize := dsize;
      dv := r;
      GrowIntoDv(m, arena.mem, b, h, k, arena.leastAddr, p, nb);
      h := Two(h, p, r, n, false);
    }

    /** try_realloc_chunk, when the chunk behind is dv and all of it is needed. */
    method GrowToAllOfDv(p: int, nb: int, oldsize: int)
      requires Valid() && Owned(h, p) && oldsize == h.C[p] && p + oldsize == dv && dv != top && nb % 16 == 0
      requires oldsize < nb <= oldsize + dvsize < nb + MIN_CHUNK_SIZE
      modifies this, arena`mem
      ensures Valid() && Resizes(old(State()), p, nb, State(), true) && Tame(old(arena.mem), old(h), arena.mem, h, {p})
      ensures h.U == old(h).U && Owned(h, p) && h.C[p] == oldsize + old(dvsize)
        && Preserved(old(arena.mem), arena.mem, p, oldsize)
    {
      hide ReuseOrder.Recorded, Core, Binned, Tame, Spare, Two, One, Preserved, SetInuse;
      ghost var m, b, k := arena.mem, Bins(), Fields();
      UsedFacts(m, b, h, k, arena.leastAddr, {}, p);
      var newsize := oldsize + dvsize;
      arena.mem := SetInuse(arena.mem, p, newsize);
      dvsize := 0;
      dv := 0;
      GrowOverNext(m, arena.mem, b, h, k, arena.leastAddr, {}, p, p + oldsize);
      h := One(h, p, p + newsize, true);
    }

    /** try_realloc_chunk, when the chunk behind is dv. */
    method GrowToDv(p: int, nb: int, oldsize: int)
      requires Valid() && Owned(h, p) && oldsize == h.C[p] && p + oldsize == dv && dv != top && nb % 16 == 0
      requires oldsize < nb <= oldsize + dvsize
      modifies this, arena`mem
      ensures Valid() && Resizes(old(State()), p, nb, State(), true) && Tame(old(arena.mem), old(h), arena.mem, h, {p})
      ensures h.U == old(h).U && Owned(h, p) && nb <= h.C[p] < nb + MIN_CHUNK_SIZE
        && Preserved(old(arena.mem), arena.mem, p, oldsize)
    {
      hide ReuseOrder.Recorded, HeapOk, Tame, Preserved, Resizes;
      var dsize := oldsize + dvsize - nb;
      if dsize >= MIN_CHUNK_SIZE {
        GrowToPartOfDv(p, nb, oldsize, dsize);
      } else {
        GrowToAllOfDv(p, nb, oldsize);
      }
    }

    /** try_realloc_chunk, with the chunk behind just taken out of its bin: all of it is needed. */
    method GrowOverSpare(p: int, nb: int, oldsize: int, next: int, nextsize: int)
      requires Holds({next}) && Owned(h, p) && oldsize == h.C[p] && next == p + oldsize && next in h.C
        && nextsize == h.C[next]
      requires next != dv
      modifies this, arena`mem
      ensures Valid() && State() == old(State()).(h := One(old(h), p, next + nextsize, true))
      ensures Tame(old(arena.mem), old(h), arena.mem, h, {p})
      ensures h.U == old(h).U && Owned(h, p) && h.C[p] == oldsize + nextsize
        && Preserved(old(arena.mem), arena.mem, p, oldsize)
    {
      hide ReuseOrder.Recorded, Core, Binned, Tame, Spare, One, Preserved, SetInuse, HeapOk;
      ghost var m, b, k := arena.mem, Bins(), Fields();
      var newsize := oldsize + nextsize;
      arena.mem := SetInuse(arena.mem, p, newsize);
      GrowOverNext(m, arena.mem, b, h, k, arena.leastAddr, {next}, p, next);
      h := One(h, p, p + newsize, true);
    }

    /** The same when a rest is left, which goes back. */
    method GrowIntoSpare(p: int, nb: int, oldsize: int, next: int, nextsize: int)
      requires Holds({next}) && Owned(h, p) && oldsize == h.C[p] && next == p + oldsize && next in h.C
        && nextsize == h.C[next]
      requires next !in h.U && oldsize < nb && nb + MIN_CHUNK_SIZE <= oldsize + nextsize && nb % 16 == 0
      modifies this, small, tree, arena`mem
      ensures Valid() && Trims(old(State()), p, nb, next + nextsize, State())
        && Tame(old(arena.mem), old(h), arena.mem, h, {p})
      ensures h.U == old(h).U && Owned(h, p) && h.C[p] == nb && Preserved(old(arena.mem), arena.mem, p, oldsize)
    {
      hide ReuseOrder.Recorded, Core, Binned, Tame, Spare, Two, Preserved, SetInuse, HeapOk, Freed, Splits, MarksOk;
      ghost var m, b, k, h0 := arena.mem, Bins(), Fields(), h;
      UsedFacts(m, b, h, k, arena.leastAddr, {next}, p);
      var rsize := oldsize + nextsize - nb;
      var r := p + nb;
      arena.mem := SetInuse(arena.mem, p, nb);
      arena.mem := SetInuse(arena.mem, r, rsize);
      BothOf16(m, b, h, k, arena.leastAddr, {next}, oldsize, next, nb, rsize);
      SplitWrites(m, p, nb, rsize);
      GrowIntoNext(m, arena.mem, b, h, k, arena.leastAddr, p, next, nb, rsize);
      NoUsedInside(m, b, h, k, arena.leastAddr, {next}, p, r);
      h := Two(h, p, r, next + nextsize, true);
      ghost var m1, h1 := arena.mem, h;
      var after := DisposeChunk(r, rsize, false);
      RestFreed(m, h0, m1, h1, arena.mem, h, p, r, oldsize);
    }

    /** try_realloc_chunk, when the chunk behind is in a bin. */
    method GrowToBinned(p: int, nb: int, oldsize: int, next: int, nextsize: int)
      requires Valid() && Owned(h, p) && oldsize == h.C[p] && next == p + oldsize && next != top && next != dv
      requires next !in h.U && next in Binned(Bins()) && nextsize == h.C[next] && oldsize < nb <= oldsize + nextsize
      requires nb % 16 == 0
      modifies this, small, tree, arena`mem
      ensures Valid() && Resizes(old(State()), p, nb, State(), true) && Tame(old(arena.mem), old(h), arena.mem, h, {p})
      ensures h.U == old(h).U && Owned(h, p) && nb <= h.C[p] < nb + MIN_CHUNK_SIZE
        && Preserved(old(arena.mem), arena.mem, p, oldsize)
    {
      hide ReuseOrder.Recorded, Core, Binned, Tame, Spare, Two, One, Preserved, HeapOk, Take, HeadsKept, MarksOk, Trims;
      ghost var m, b, k, h0 := arena.mem, Bins(), Fields(), h;
      var rsize := oldsize + nextsize - nb;
      HeapBinsOk(m, b, h, k, arena.leastAddr, {});
      UnlinkChunk(next, nextsize);
      Fetched(m, arena.mem, b, Bins(), h, k, arena.leastAddr, {}, next);
      assert {} + {next} == {next};
      ghost var m1 := arena.mem;
      Unmoved(m, m1, h, p);
      if rsize < MIN_CHUNK_SIZE {
        GrowOverSpare(p, nb, oldsize, next, nextsize);
      } else {
        GrowIntoSpare(p, nb, oldsize, next, nextsize);
      }
      AfterUnlink(m, m1, h0, arena.mem, h, p, oldsize);
    }

    /** The cases of try_realloc_chunk. */
    method ResizeAt(p: int, nb: int, oldsize: int, next: int) returns (newp: int)
      requires Valid() && Owned(h, p) && nb % 16 == 0 && nb >= MIN_CHUNK_SIZE
      requires p != 0 && oldsize == h.C[p] && next == p + oldsize
      modifies this, small, tree, arena`mem
      ensures Valid() && (newp == p || newp == 0) && Resizes(old(State()), p, nb, State(), newp != 0)
      ensures newp == 0 ==> arena.mem == old(arena.mem) && State() == old(State())
      ensures newp != 0 ==>
        && Tame(old(arena.mem), old(h), arena.mem, h, {p}) && h.U == old(h).U && Owned(h, p)
        && nb <= h.C[p] < nb + MIN_CHUNK_SIZE
        && Preserved(old(arena.mem), arena.mem, p, if nb < oldsize then nb else oldsize)
    {
      hide ReuseOrder.Recorded, Core, Binned, Spare, Two, One, HeapOk, Trims, ChunkSize, Pinuse, Cinuse, IsInuse,
        IsMmapped, MarksOk, UsedMap;
      ghost var m, b, k := arena.mem, Bins(), Fields();
      NeighbourFacts(m, b, h, k, arena.leastAddr, p);
      newp := 0;
      if oldsize >= nb {
        var rsize := oldsize - nb;
        if rsize >= MIN_CHUNK_SIZE {
          GiveBackEnd(p, nb, rsize);
        } else {
        }
        newp := p;
      } else if next == top {
        if oldsize + topsize > nb {
          GrowToTop(p, nb, oldsize);
          newp := p;
        }
      } else if next == dv {
        if oldsize + dvsize >= nb {
          GrowToDv(p, nb, oldsize);
          newp := p;
        }
      } else if !Cinuse(Rd(arena.mem, next + 8)) {
        var nextsize := ChunkSize(Rd(arena.mem, next + 8));
        if oldsize + nextsize >= nb {
          GrowToBinned(p, nb, oldsize, next, nextsize);
          newp := p;
        }
      }
    }

    /** try_realloc_chunk for a chunk of the heap: p if it could be given nb bytes where it is, or 0. */
    method TryRealloc(p: int, nb: int) returns (newp: int)
      requires Valid() && Owned(h, p) && nb % 16 == 0 && nb >= MIN_CHUNK_SIZE
      modifies this, small, tree, arena`mem
      ensures Valid() && (newp == p || newp == 0) && p != 0 && Resizes(old(State()), p, nb, State(), newp != 0)
      ensures newp == 0 ==> arena.mem == old(arena.mem) && State() == old(State())
      ensures newp != 0 ==>
        && Tame(old(arena.mem), old(h), arena.mem, h, {p}) && h.U == old(h).U && Owned(h, p)
        && UsedMap(h) == UsedMap(old(h))[p := h.C[p]]
        && nb <= h.C[p] < nb + MIN_CHUNK_SIZE
        && Preserved(old(arena.mem), arena.mem, p, if nb < old(h).C[p] then nb else old(h).C[p])
    {
      hide ReuseOrder.Recorded, Core, Binned, Tame, Spare, Two, One, Preserved, HeapOk, Trims, ChunkSize, Pinuse,
        Cinuse, IsInuse, IsMmapped, MarksOk, UsedMap, Resizes;
      ghost var m, b, k, h0 := arena.mem, Bins(), Fields(), h;
      NeighbourFacts(m, b, h, k, arena.leastAddr, p);
      UsedFacts(m, b, h, k, arena.leastAddr, {}, p);
      newp := 0;
      var oldsize := ChunkSize(Rd(arena.mem, p + 8));
      var next := p + oldsize;
      newp := ResizeAt(p, nb, oldsize, next);
      if newp != 0 { ResizedUse(m, h0, arena.mem, h, p); }
    }

    // -------------------------------------------------------------------------------------
    // memalign and bulk_free

    /** internal_memalign, first half: in a chunk that is large enough, find an aligned place and give back
        what lies before it. */
    method AlignFront(p0: int, alignment: int, nb: int) returns (p: int)
      requires Valid() && Owned(h, p0) && alignment >= MIN_CHUNK_SIZE && alignment % 16 == 0
      requires nb >= MIN_CHUNK_SIZE && nb % 16 == 0 && h.C[p0] >= nb + alignment + MIN_CHUNK_SIZE
      modifies this, small, tree, arena`mem
      ensures Valid() && Aligned(p + 16, alignment) && Placed(old(h), p0, h, p, nb)
      ensures Tame(old(arena.mem), old(h), arena.mem, h, {p0})
    {
      hide ReuseOrder.Recorded, Core, Binned, Spare, MarksOk, HeapOk, UsedMap, Trims, ChunkSize, TagsOk, Aligned,
        AlignUp;
      NeighbourFacts(arena.mem, Bins(), h, Fields(), arena.leastAddr, p0);
      var mem := p0 + 16;
      p := p0;
      if !Aligned(mem, alignment) {
        var br := AlignUp(mem, alignment) - 16;
        var pos := if br - p >= MIN_CHUNK_SIZE then br else br + alignment;
        LeaderSize(p, alignment, pos);
        var leadsize := pos - p;
        var newsize := ChunkSize(Rd(arena.mem, p + 8)) - leadsize;
        GiveBackLeader(p, leadsize, newsize);
        p := pos;
      } else {
        SameUsedMap(h, p0);
      }
    }

    /** The part of internal_memalign behind the call of malloc: in the chunk p0, which is large enough, find
        an aligned place for nb bytes and give back what lies before and behind it. */
    method AlignWithin(p0: int, alignment: int, nb: int) returns (mem: int)
      requires Valid() && Owned(h, p0) && alignment >= MIN_CHUNK_SIZE && alignment % 16 == 0
      requires nb >= MIN_CHUNK_SIZE && nb % 16 == 0 && h.C[p0] >= nb + alignment + MIN_CHUNK_SIZE
      modifies this, small, tree, arena`mem
      ensures Valid() && Aligned(mem, alignment)
      ensures Placed(old(h), p0, h, mem - 16, nb) && h.C[mem - 16] <= nb + MIN_CHUNK_SIZE
      ensures Tame(old(arena.mem), old(h), arena.mem, h, {p0})
    {
      hide ReuseOrder.Recorded, Core, Binned, Tame, Spare, MarksOk, HeapOk, UsedMap, Preserved, Trims,
        ChunkSize, Aligned;
      ghost var m0, h0 := arena.mem, h;
      var p := AlignFront(p0, alignment, nb);
      ghost var m1, h1 := arena.mem, h;
      NeighbourFacts(arena.mem, Bins(), h, Fields(), arena.leastAddr, p);
      var size := ChunkSize(Rd(arena.mem, p + 8));
      if size > nb + MIN_CHUNK_SIZE {
        var remainder := size - nb;
        GiveBackEnd(p, nb, remainder);
        AlignedTame(m0, h0, m1, h1, arena.mem, h, p0, p);
        assert UsedMap(h) == (UsedMap(h0) - {p0})[p := size][p := nb];
        SetTwice(UsedMap(h0) - {p0}, p, size, nb);
      }
      mem := p + 16;
    }

    /** internal_memalign gives back the space before the aligned place. */
    method GiveBackLeader(p: int, leadsize: int, newsize: int)
      requires Valid() && Owned(h, p) && h.C[p] == leadsize + newsize
      requires leadsize >= MIN_CHUNK_SIZE && newsize >= MIN_CHUNK_SIZE && leadsize % 16 == 0
      modifies this, small, tree, arena`mem
      ensures Valid() && Placed(old(h), p, h, p + leadsize, newsize) && h.C[p + leadsize] == newsize
        && p + leadsize !in old(h).U
      ensures Tame(old(arena.mem), old(h), arena.mem, h, {p})
    {
      hide ReuseOrder.Recorded, Core, Binned, Tame, Spare, MarksOk, Two, HeapOk, Splits, Preserved, Freed,
        SetInuse, UsedMap;
      ghost var m, b, k, h0 := arena.mem, Bins(), Fields(), h;
      UsedFacts(m, b, h, k, arena.leastAddr, {}, p);
      RestOf16(leadsize, newsize);
      var newp := p + leadsize;
      arena.mem := SetInuse(arena.mem, newp, newsize);
      arena.mem := SetInuse(arena.mem, p, leadsize);
      SplitWritesBack(m, p, leadsize, newsize);
      SplitUsed(m, arena.mem, b, h, k, arena.leastAddr, {}, p, leadsize, newsize);
      SplitUse(m, b, h, k, arena.leastAddr, p, newp);
      SplitBack(UsedMap(h), p, newp, leadsize, newsize);
      h := Two(h, p, newp, p + h.C[p], true);
      ghost var m1, h1 := arena.mem, h;
      var after := DisposeChunk(p, leadsize, false);
      LeaderFreed(m, h0, m1, h1, arena.mem, h, p, newp);
    }

    /** internal_bulk_free, on one entry that is followed by the chunk behind its own: the two become one. */
    method JoinNext(p: int, psize: int, next: int)
      requires Valid() && Owned(h, p) && psize == h.C[p] && next == p + psize && Owned(h, next)
      modifies this, arena`mem
      ensures Valid() && Owned(h, p) && UsedMap(h) == (UsedMap(old(h)) - {p, next})[p := h.C[p]]
      ensures Tame(old(arena.mem), old(h), arena.mem, h, {p, next})
    {
      hide ReuseOrder.Recorded, Core, Binned, Tame, Spare, MarksOk, HeapOk, UsedMap, SetInuse, ChunkSize, One;
      ghost var m, b, k := arena.mem, Bins(), Fields();
      NeighbourFacts(m, b, h, k, arena.leastAddr, p);
      var newsize := ChunkSize(Rd(arena.mem, next + 8)) + psize;
      arena.mem := SetInuse(arena.mem, p, newsize);
      JoinUsed(m, arena.mem, b, h, k, arena.leastAddr, p, next);
      JoinUse(m, b, h, k, arena.leastAddr, p, next);
      h := One(h, p, p + newsize, true);
    }
  }
}
