/** Whole runs: what any program can rely on, whatever calls it makes, in whatever order, and whatever the
    system answers meanwhile. */
module Runs {
  import opened Words
  import opened ChunkMemory
  import opened Payloads
  import opened Ownership
  import opened Installing
  import opened Spaces
  import opened Segments
  import opened Chunks
  import opened Requests
  import opened Alignments
  import opened HeapFacts
  import opened HeapInvariant
  import opened HeapState
  import opened System
  import opened Refusals
  import Allocator

  datatype Call =
    | Malloc(bytes: nat)
    | Free(mem: int)
    | Realloc(mem: int, bytes: nat)
    | ReallocInPlace(mem: int, bytes: nat)
    | Memalign(alignment: nat, bytes: nat)
    | BulkFree(mems: seq<int>)
    | Store(chunk: int, offset: int, value: int)

  /** What came of a call: nothing, a new chunk, the end of some, a chunk that moved or only changed its
      size, or a new value. */
  datatype Event =
    | Refused
    | Got(p: int, size: int)
    | Gone(chunks: set<int>)
    | Changed(p: int, q: int, size: int, bytes: int)
    | Put(p: int, offset: int, value: int)

  /** The allocator before a call, and the calls of the system that it makes then. */
  datatype Moment = Moment(h: Shape, maps: Mappings, lost: set<int>, now: Standing, calls: seq<SysCall>)

  /** A place in the payload of a chunk. */
  datatype Cell = Cell(chunk: int, offset: int)

  /** What the program knows: its chunks, how much each of them holds, and the values it stored and did not
      free since. */
  datatype Known = Known(sizes: map<int, int>, cells: map<Cell, int>)

  // ---------------------------------------------------------------------------------------
  // What the program knows

  function CellsLeft(cells: map<Cell, int>, E: set<int>): map<Cell, int> {
    map c | c in cells && c.chunk !in E :: if c in cells then cells[c] else 0
  }

  function MovedCells(cells: map<Cell, int>, p: int, q: int, bytes: int): set<Cell> {
    set c | c in cells && c.chunk == p && c.offset < bytes :: Cell(q, c.offset)
  }

  /** The cells of p move to q, as far as the new size asked for goes. */
  function CellsMoved(cells: map<Cell, int>, p: int, q: int, bytes: int): map<Cell, int> {
    var here := MovedCells(cells, p, q, bytes);
    var there := CellsLeft(cells, {p});
    map c | c in there.Keys + here ::
      if c in here && Cell(p, c.offset) in cells then cells[Cell(p, c.offset)] else if c in there then there[c] else 0
  }

  function Remember(k: Known, e: Event): Known {
    match e
    case Refused => k
    case Got(p, size) => k.(sizes := k.sizes[p := size])
    case Gone(E) => Known(k.sizes - E, CellsLeft(k.cells, E))
    case Changed(p, q, size, bytes) => Known((k.sizes - {p})[q := size], CellsMoved(k.cells, p, q, bytes))
    case Put(p, offset, value) => k.(cells := k.cells[Cell(p, offset) := value])
  }

  function After(events: seq<Event>): Known {
    if events == [] then Known(map[], map[]) else Remember(After(events[..|events| - 1]), events[|events| - 1])
  }

  function CallsIn(moments: seq<Moment>): seq<SysCall> {
    if moments == [] then [] else CallsIn(moments[..|moments| - 1]) + moments[|moments| - 1].calls
  }

  /** What came of a call fits the call.  Only a call for memory can be refused, and only if no free chunk has room
      for it and all that the system may be asked for was asked in vain. */
  ghost predicate Answers(k: Known, x: Moment, c: Call, e: Event) {
    match c
    case Malloc(bytes) =>
      if e == Refused then RefusesRequest(x.h, x.now, bytes, x.calls) else e.Got? && e.p !in k.sizes && bytes <= e.size
    case Free(mem) => e == Gone(if mem == 0 then {} else {mem - 16})
    case Realloc(mem, bytes) =>
      if e == Refused && mem == 0 then
        RefusesRequest(x.h, x.now, bytes, x.calls)
      else if e == Refused then
        bytes >= MAX_REQUEST || RefusesResize(x.h, x.maps, x.now, mem - 16, SizeFor(bytes), x.calls)
      else if mem == 0 then
        e.Got? && e.p !in k.sizes && bytes <= e.size
      else
        e.Changed? && e.p == mem - 16 && (e.q == e.p || e.q !in k.sizes) && e.bytes == bytes <= e.size
    case ReallocInPlace(mem, bytes) =>
      if e == Refused then
        mem == 0 || bytes >= MAX_REQUEST
        || Tries(x.h, x.maps, x.now.params, mem - 16, SizeFor(bytes), false, 0, x.calls)
      else
        mem != 0 && e.Changed? && e.p == e.q == mem - 16 && e.bytes == bytes <= e.size
    case Memalign(alignment, bytes) =>
      if e == Refused then
        RefusesMemalign(x.h, x.now, alignment, bytes, x.calls)
      else
        e.Got? && e.p !in k.sizes && bytes <= e.size && (PowerOfTwo(alignment) ==> Aligned(e.p + 16, alignment))
    case BulkFree(mems) => e == Gone(Listed(mems))
    case Store(p, offset, value) => e == Put(p, offset, value)
  }

  /** What the program knows is so. */
  ghost predicate Holds(k: Known, m: Mem, u: map<int, int>) {
    && u == k.sizes
    && forall c | c in k.cells ::
         Payload(u, c.chunk, c.chunk + 16 + c.offset) && Rd(m, c.chunk + 16 + c.offset) == k.cells[c]
  }

  lemma HoldsChanged(k: Known, m: Mem, u: map<int, int>, m': Mem, u': map<int, int>, p: int, q: int, bytes: int)
    requires Holds(k, m, u) && Moved(m, u, m', u', p, q, bytes)
    ensures Holds(Remember(k, Changed(p, q, u'[q], bytes)), m', u')
    ensures (q == p || q !in k.sizes) && bytes <= u'[q]
  {
    var k' := Remember(k, Changed(p, q, u'[q], bytes));
    forall c | c in k'.cells
      ensures Payload(u', c.chunk, c.chunk + 16 + c.offset) && Rd(m', c.chunk + 16 + c.offset) == k'.cells[c]
    {
      var a := c.chunk + 16 + c.offset;
      if c in MovedCells(k.cells, p, q, bytes) {
        var d := Cell(p, c.offset);
        assert Payload(u, p, p + 16 + c.offset) && c.offset < Min(u[p], bytes);
        assert Rd(m', a) == Rd(m, a - q + p);
      } else {
        assert Payload(u, c.chunk, a);
      }
    }
  }

  /** A call that returns memory, or null. */
  lemma Gains(k: Known, m: Mem, u: map<int, int>, m': Mem, u': map<int, int>, mem: int, bytes: nat) returns (e: Event)
    requires Holds(k, m, u) && Kept(m, u, m', u', {})
    requires if mem == 0 then u' == u else Gained(u, u', mem - 16, SizeFor(bytes)) && bytes <= u'[mem - 16]
    ensures Holds(Remember(k, e), m', u')
    ensures e == if mem == 0 then Refused else Got(mem - 16, u'[mem - 16])
    ensures mem != 0 ==> mem - 16 !in k.sizes && bytes <= u'[mem - 16]
  {
    if mem == 0 {
      e := Refused;
    } else {
      e := Got(mem - 16, u'[mem - 16]);
    }
  }

  lemma Changes(k: Known, m: Mem, u: map<int, int>, m': Mem, u': map<int, int>, oldmem: int, mem: int, bytes: nat)
    returns (e: Event)
    requires Holds(k, m, u) && Moved(m, u, m', u', oldmem - 16, mem - 16, bytes)
    ensures mem - 16 in u' && e == Changed(oldmem - 16, mem - 16, u'[mem - 16], bytes)
    ensures Holds(Remember(k, e), m', u') && (mem == oldmem || mem - 16 !in k.sizes) && bytes <= u'[mem - 16]
  {
    e := Changed(oldmem - 16, mem - 16, u'[mem - 16], bytes);
    HoldsChanged(k, m, u, m', u', oldmem - 16, mem - 16, bytes);
  }

  // ---------------------------------------------------------------------------------------
  // Runs

  /** A call that the program may make: it names only chunks of its own, and asks for no alignment above
      2^63; and it resizes a chunk only where mmap_resize has room behind its offset. */
  ghost predicate Fits(k: Known, allocator: Allocator.Allocator, c: Call)
    reads allocator
  {
    match c
    case Malloc(bytes) => bytes < WORD
    case Free(mem) => mem == 0 || mem - 16 in k.sizes
    case Realloc(mem, bytes) =>
      bytes < WORD && (mem == 0 || (mem - 16 in k.sizes && allocator.MayResize(mem - 16, SizeFor(bytes))))
    case ReallocInPlace(mem, bytes) =>
      bytes < WORD && (mem == 0 || (mem - 16 in k.sizes && allocator.MayResize(mem - 16, SizeFor(bytes))))
    case Memalign(alignment, bytes) => alignment <= MAX_ALIGNMENT && bytes < WORD
    case BulkFree(mems) => OnceEach(mems) && forall p | p in Listed(mems) :: p in k.sizes
    case Store(p, offset, _) => p in k.sizes && 0 <= offset < k.sizes[p]
  }

  class Program {
    constructor () {
    }

    /** The program decides.  All that is said of it is that its calls fit. */
    method Next(ghost k: Known, allocator: Allocator.Allocator) returns (c: Call)
      ensures Fits(k, allocator, c)
    {
      c := Malloc(0);
    }
  }

  /** The allocator is in order, and what the program knows is so. */
  ghost predicate InOrder(al: Allocator.Allocator, k: Known)
    reads al, al.heap, al.heap.small, al.heap.tree, al.heap.arena, al.os
  {
    al.Valid() && al.os.tidy && Holds(k, al.heap.arena.mem, al.Owner())
  }

  /** The allocator now, after these calls since. */
  ghost function At(al: Allocator.Allocator, calls: seq<SysCall>): Moment
    reads al, al.heap
  {
    Moment(al.heap.h, al.maps, al.lost, al.Now(), calls)
  }

  /** The chunks that the program knows are those of the allocator. */
  predicate Knows(k: Known, x: Moment) {
    k.sizes == Usable(x.h, x.maps) - x.lost
  }

  method PerformMalloc(al: Allocator.Allocator, bytes: nat, ghost k: Known) returns (ghost e: Event, ghost x: Moment)
    requires InOrder(al, k) && bytes < WORD
    modifies al, al.heap, al.heap.small, al.heap.tree, al.heap.arena, al.os
    ensures InOrder(al, Remember(k, e)) && old(al.os.calls) <= al.os.calls
    ensures x == old(At(al, [])).(calls := al.os.calls[|old(al.os.calls)|..]) && Answers(k, x, Malloc(bytes), e)
  {
    hide Allocator.Allocator.Valid, Allocator.Allocator.Owner, Kept, Gained, Holds, Remember, SizeFor;
    ghost var m, u, now, c0 := al.heap.arena.mem, al.Owner(), At(al, []), al.os.calls;
    var mem := al.Malloc(bytes);
    e := Gains(k, m, u, al.heap.arena.mem, al.Owner(), mem, bytes);
    x := now.(calls := al.os.calls[|c0|..]);
  }

  method PerformMemalign(al: Allocator.Allocator, alignment: nat, bytes: nat, ghost k: Known)
    returns (ghost e: Event, ghost x: Moment)
    requires InOrder(al, k) && bytes < WORD && alignment <= MAX_ALIGNMENT
    modifies al, al.heap, al.heap.small, al.heap.tree, al.heap.arena, al.os
    ensures InOrder(al, Remember(k, e)) && old(al.os.calls) <= al.os.calls
    ensures x == old(At(al, [])).(calls := al.os.calls[|old(al.os.calls)|..])
      && Answers(k, x, Memalign(alignment, bytes), e)
  {
    hide Allocator.Allocator.Valid, Allocator.Allocator.Owner, Kept, Gained, Holds, Remember, SizeFor, PowerOfTwo,
      Aligned;
    ghost var m, u, now, c0 := al.heap.arena.mem, al.Owner(), At(al, []), al.os.calls;
    var mem := al.Memalign(alignment, bytes);
    e := Gains(k, m, u, al.heap.arena.mem, al.Owner(), mem, bytes);
    x := now.(calls := al.os.calls[|c0|..]);
  }

  method PerformFree(al: Allocator.Allocator, mem: int, ghost k: Known) returns (ghost e: Event, ghost x: Moment)
    requires InOrder(al, k) && (mem == 0 || mem - 16 in k.sizes)
    modifies al, al.heap, al.heap.small, al.heap.tree, al.heap.arena, al.os
    ensures InOrder(al, Remember(k, e)) && old(al.os.calls) <= al.os.calls
    ensures x == old(At(al, [])).(calls := al.os.calls[|old(al.os.calls)|..]) && Answers(k, x, Free(mem), e)
  {
    hide Allocator.Allocator.Valid, Allocator.Allocator.Owner;
    ghost var m, u, now, c0 := al.heap.arena.mem, al.Owner(), At(al, []), al.os.calls;
    al.Free(mem);
    e := Gone(if mem == 0 then {} else {mem - 16});
    x := now.(calls := al.os.calls[|c0|..]);
  }

  method PerformRealloc(al: Allocator.Allocator, oldmem: int, bytes: nat, ghost k: Known)
    returns (ghost e: Event, ghost x: Moment)
    requires InOrder(al, k) && Fits(k, al, Realloc(oldmem, bytes))
    modifies al, al.heap, al.heap.small, al.heap.tree, al.heap.arena, al.os
    ensures InOrder(al, Remember(k, e)) && old(al.os.calls) <= al.os.calls
    ensures x == old(At(al, [])).(calls := al.os.calls[|old(al.os.calls)|..])
      && Answers(k, x, Realloc(oldmem, bytes), e)
  {
    hide Allocator.Allocator.Valid, Allocator.Allocator.Owner, Allocator.Allocator.MayResize, Kept, Gained, Moved,
      Remember, SizeFor;
    ghost var m, u, now, c0 := al.heap.arena.mem, al.Owner(), At(al, []), al.os.calls;
    var mem := al.Realloc(oldmem, bytes);
    if oldmem == 0 || mem == 0 {
      e := Gains(k, m, u, al.heap.arena.mem, al.Owner(), mem, bytes);
    } else {
      e := Changes(k, m, u, al.heap.arena.mem, al.Owner(), oldmem, mem, bytes);
    }
    x := now.(calls := al.os.calls[|c0|..]);
  }

  method PerformReallocInPlace(al: Allocator.Allocator, oldmem: int, bytes: nat, ghost k: Known)
    returns (ghost e: Event, ghost x: Moment)
    requires InOrder(al, k) && Fits(k, al, ReallocInPlace(oldmem, bytes))
    modifies al, al.heap, al.heap.small, al.heap.tree, al.heap.arena, al.os
    ensures InOrder(al, Remember(k, e)) && old(al.os.calls) <= al.os.calls
    ensures x == old(At(al, [])).(calls := al.os.calls[|old(al.os.calls)|..])
      && Answers(k, x, ReallocInPlace(oldmem, bytes), e)
  {
    hide Allocator.Allocator.Valid, Allocator.Allocator.Owner, Allocator.Allocator.MayResize, Kept, Gained, Moved,
      Remember, SizeFor;
    ghost var m, u, now, c0 := al.heap.arena.mem, al.Owner(), At(al, []), al.os.calls;
    var mem := al.ReallocInPlace(oldmem, bytes);
    if mem == 0 {
      e := Gains(k, m, u, al.heap.arena.mem, al.Owner(), mem, bytes);
    } else {
      e := Changes(k, m, u, al.heap.arena.mem, al.Owner(), oldmem, mem, bytes);
    }
    x := now.(calls := al.os.calls[|c0|..]);
  }

  method PerformBulkFree(al: Allocator.Allocator, mems: seq<int>, ghost k: Known)
    returns (ghost e: Event, ghost x: Moment)
    requires InOrder(al, k) && Fits(k, al, BulkFree(mems))
    modifies al, al.heap, al.heap.small, al.heap.tree, al.heap.arena, al.os
    ensures InOrder(al, Remember(k, e)) && old(al.os.calls) <= al.os.calls
    ensures x == old(At(al, [])).(calls := al.os.calls[|old(al.os.calls)|..]) && Answers(k, x, BulkFree(mems), e)
  {
    hide Allocator.Allocator.Valid, Allocator.Allocator.Owner, Listed, OnceEach;
    ghost var m, u, now, c0 := al.heap.arena.mem, al.Owner(), At(al, []), al.os.calls;
    var a := new int[|mems|](i requires 0 <= i < |mems| => mems[i]);
    assert a[..] == mems;
    al.BulkFree(a);
    e := Gone(Listed(mems));
    x := now.(calls := al.os.calls[|c0|..]);
  }

  method PerformStore(al: Allocator.Allocator, p: int, offset: int, value: int, ghost k: Known)
    returns (ghost e: Event, ghost x: Moment)
    requires InOrder(al, k) && p in k.sizes && 0 <= offset < k.sizes[p]
    modifies al, al.heap, al.heap.small, al.heap.tree, al.heap.arena, al.os
    ensures InOrder(al, Remember(k, e)) && old(al.os.calls) <= al.os.calls
    ensures x == old(At(al, [])).(calls := al.os.calls[|old(al.os.calls)|..])
      && Answers(k, x, Store(p, offset, value), e)
  {
    hide Allocator.Allocator.Valid, Allocator.Allocator.Owner;
    ghost var m, u, now, c0 := al.heap.arena.mem, al.Owner(), At(al, []), al.os.calls;
    al.Store(p, p + 16 + offset, value);
    e := Put(p, offset, value);
    x := now.(calls := al.os.calls[|c0|..]);
  }

  method Perform(al: Allocator.Allocator, c: Call, ghost k: Known) returns (ghost e: Event, ghost x: Moment)
    requires InOrder(al, k) && Fits(k, al, c)
    modifies al, al.heap, al.heap.small, al.heap.tree, al.heap.arena, al.os
    ensures InOrder(al, Remember(k, e)) && old(al.os.calls) <= al.os.calls
    ensures x == old(At(al, [])).(calls := al.os.calls[|old(al.os.calls)|..]) && Answers(k, x, c, e)
  {
    hide InOrder, Remember;
    match c
    case Malloc(bytes) => e, x := PerformMalloc(al, bytes, k);
    case Free(mem) => e, x := PerformFree(al, mem, k);
    case Realloc(mem, bytes) => e, x := PerformRealloc(al, mem, bytes, k);
    case ReallocInPlace(mem, bytes) => e, x := PerformReallocInPlace(al, mem, bytes, k);
    case Memalign(alignment, bytes) => e, x := PerformMemalign(al, alignment, bytes, k);
    case BulkFree(mems) => e, x := PerformBulkFree(al, mems, k);
    case Store(p, offset, value) => e, x := PerformStore(al, p, offset, value, k);
  }

  /** Other parts of the program may move the break. */
  method Meanwhile(al: Allocator.Allocator, ghost k: Known)
    requires InOrder(al, k)
    modifies al.os
    ensures InOrder(al, k) && al.os.calls == old(al.os.calls)
  {
    hide HeapOk, Laid, LostOk, SegTotal, MapTotal, Usable, Holds;
    al.os.Others();
  }

  /** No two chunks share a byte of payload; what is mapped for the allocator is what footprint says. */
  lemma Separate(al: Allocator.Allocator)
    requires al.Valid()
    ensures forall p, q, a | Payload(al.Owner(), p, a) && Payload(al.Owner(), q, a) :: p == q
    ensures al.footprint == SegTotal(al.segs) + MapTotal(al.maps) <= al.maxFootprint
  {
    hide HeapOk, SegsOk, MapsOk, HasAll, Usable, TagsOk;
    var h, m := al.heap, al.heap.arena.mem;
    TagsIn(m, h.Bins(), h.h, h.Fields(), h.arena.leastAddr, {});
    forall p, q, a | Payload(al.Owner(), p, a) && Payload(al.Owner(), q, a) ensures p == q {
      assert Payload(al.Held(), p, a) && Payload(al.Held(), q, a);
      PayloadsApart(m, h.h, al.segs, al.maps, p, q, a);
    }
  }

  lemma IsKnown(al: Allocator.Allocator, k: Known)
    requires InOrder(al, k)
    ensures Knows(k, At(al, []))
  {
    hide Allocator.Allocator.Valid, Usable;
  }

  /** Every event fits its call, from what the program knew and how the allocator stood. */
  ghost predicate Told(calls: seq<Call>, events: seq<Event>, moments: seq<Moment>) {
    && |calls| == |events| == |moments|
    && forall i | 0 <= i < |calls| ::
         Knows(After(events[..i]), moments[i]) && Answers(After(events[..i]), moments[i], calls[i], events[i])
  }

  lemma Untold()
    ensures Told([], [], []) && CallsIn([]) == [] && After([]) == Known(map[], map[])
  {
  }

  lemma CallsMore(c0: seq<SysCall>, more: seq<SysCall>, made: seq<SysCall>, c1: seq<SysCall>)
    requires c0 + more <= c1 && made == c1[|c0 + more|..]
    ensures c1 == c0 + (more + made)
  {
  }

  lemma SameKnowledge(k: Known, x: Moment, calls: seq<SysCall>)
    ensures Knows(k, x.(calls := calls)) <==> Knows(k, x)
  {
  }

  lemma OneMoreTold(calls: seq<Call>, events: seq<Event>, moments: seq<Moment>, c: Call, e: Event, x: Moment,
                    calls': seq<SysCall>)
    requires Told(calls, events, moments) && Answers(After(events), x, c, e)
      && Knows(After(events), x.(calls := calls'))
    ensures Told(calls + [c], events + [e], moments + [x])
    ensures After(events + [e]) == Remember(After(events), e) && CallsIn(moments + [x]) == CallsIn(moments) + x.calls
  {
    hide Knows, Answers, Remember;
    SameKnowledge(After(events), x, calls');
    assert events == (events + [e])[..|events|] && moments == (moments + [x])[..|moments|];
    assert forall i | 0 <= i < |calls| :: (events + [e])[..i] == events[..i];
  }

  /** Every program with every system, over n calls: the allocator stays in order; the program has the chunks its calls
      gave it and not those it freed; whatever it stored in them is still there; and it is refused only what neither
      the heap nor the system has room for. */
  method Run(al: Allocator.Allocator, program: Program, n: nat)
    returns (calls: seq<Call>, ghost events: seq<Event>, ghost moments: seq<Moment>)
    requires al.Valid() && al.os.tidy && al.Owner() == map[]
    modifies al, al.heap, al.heap.small, al.heap.tree, al.heap.arena, al.os
    ensures |calls| == n && Told(calls, events, moments)
    ensures al.os.calls == old(al.os.calls) + CallsIn(moments)
    ensures al.Valid() && Holds(After(events), al.heap.arena.mem, al.Owner())
    ensures forall p, q, a | Payload(al.Owner(), p, a) && Payload(al.Owner(), q, a) :: p == q
    ensures al.footprint == SegTotal(al.segs) + MapTotal(al.maps) <= al.maxFootprint
  {
    hide Allocator.Allocator.Valid, Allocator.Allocator.Owner, After, Told, Answers, Fits, Payload, Knows, CallsIn;
    calls, events, moments := [], [], [];
    Untold();
    ghost var c0 := al.os.calls;
    while |calls| < n
      invariant |calls| <= n && InOrder(al, After(events)) && Told(calls, events, moments)
      invariant al.os.calls == c0 + CallsIn(moments)
    {
      ghost var k, c1 := After(events), al.os.calls;
      Meanwhile(al, k);
      var c := program.Next(k, al);
      IsKnown(al, k);
      ghost var e, x := Perform(al, c, k);
      OneMoreTold(calls, events, moments, c, e, x, []);
      CallsMore(c0, CallsIn(moments), x.calls, al.os.calls);
      calls, events, moments := calls + [c], events + [e], moments + [x];
    }
    Separate(al);
  }
}
