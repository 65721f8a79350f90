/** The system calls the allocator makes (malloc.c, CALL_MORECORE, CALL_MMAP, CALL_MUNMAP, CALL_MREMAP).
    Their outcomes are not determined; what is written down here is what the allocator relies on. */
module System {
  import opened Words
  import opened ChunkMemory

  // MFAIL
  const FAIL: int := -1

  // The system hands out memory below this address only.
  const LIMIT: int := 0x4000_0000_0000_0000

  type Address = a: int | 0 <= a < WORD

  predicate Holds(p: int, n: int, a: int) {
    p <= a < p + n
  }

  function Bytes(p: int, n: int): set<int> {
    set a | p <= a < p + n && Holds(p, n, a)
  }

  /** Memory the process did not have. */
  predicate New(granted: set<int>, p: int, n: int) {
    HEAP_MIN <= p && p + n <= LIMIT && forall a | p <= a < p + n :: !(a in granted)
  }

  /** A call of the system by the allocator, with its answer. */
  datatype SysCall =
    | SbrkCall(n: int, result: int)
    | MmapCall(n: int, result: int)
    | MunmapCall(p: int, n: int, ok: bool)
    | MremapCall(p: int, n: int, newsize: int, mayMove: bool, result: int)

  class Os {
    var granted: set<int>
    var brk: Address
    // All calls that the allocator made.
    ghost var calls: seq<SysCall>
    // Whether there is a break at all, and whether the rest of the program keeps it at multiples
    // of 8.
    const hasBreak: bool
    const tidy: bool

    constructor (hasBreak: bool, tidy: bool)
      ensures granted == {} && Ok()
    {
      granted, calls := {}, [];
      brk := 0;
      this.hasBreak, this.tidy := hasBreak, tidy;
    }

    predicate Ok()
      reads this
    {
      tidy ==> brk % 8 == 0
    }

    /** Whenever the allocator does not hold its lock, the rest of the program may move the break. */
    method Others()
      modifies this`brk
      ensures Ok()
    {
      brk := *;
      if tidy && brk % 8 != 0 { brk := 0; }
    }

    /** sbrk: the break, if there is one, with argument 0; more memory at the break, wherever that is; or back to
        a lower break.  Only the first of these may not fail. */
    method Morecore(n: int) returns (r: int)
      modifies this
      ensures r == FAIL ==> granted == old(granted) && brk == old(brk)
      ensures n == 0 && hasBreak ==> r != FAIL
      ensures r != FAIL ==> hasBreak
      ensures r != FAIL ==> r == old(brk) && brk == r + n
      ensures r != FAIL && n > 0 ==> New(old(granted), r, n) && granted == old(granted) + Bytes(r, n)
      ensures r != FAIL && n == 0 ==> granted == old(granted)
      ensures r != FAIL && n < 0 ==> granted == old(granted) - Bytes(r + n, -n)
      ensures calls == old(calls) + [SbrkCall(n, r)]
    {
      var ok: bool := *;
      if hasBreak && (ok || n == 0) && 0 <= brk + n < WORD && (n > 0 ==> New(granted, brk, n)) {
        r := brk;
        brk := brk + n;
        granted := if n > 0 then granted + Bytes(r, n) else if n < 0 then granted - Bytes(r + n, -n) else granted;
      } else {
        r := FAIL;
      }
      calls := calls + [SbrkCall(n, r)];
    }

    method Mmap(n: nat) returns (r: int)
      modifies this`granted, this`calls
      ensures calls == old(calls) + [MmapCall(n, r)]
      ensures r == FAIL ==> granted == old(granted)
      ensures r != FAIL ==> r % 16 == 0 && New(old(granted), r, n) && granted == old(granted) + Bytes(r, n)
    {
      r := *;
      if r != FAIL && r % 16 == 0 && New(granted, r, n) {
        granted := granted + Bytes(r, n);
      } else {
        r := FAIL;
      }
      calls := calls + [MmapCall(n, r)];
    }

    method Munmap(p: int, n: nat) returns (ok: bool)
      modifies this`granted, this`calls
      ensures calls == old(calls) + [MunmapCall(p, n, ok)]
      ensures granted == if ok then old(granted) - Bytes(p, n) else old(granted)
    {
      ok := *;
      if ok { granted := granted - Bytes(p, n); }
      calls := calls + [MunmapCall(p, n, ok)];
    }

    /** The mapping of n bytes at p gets a new size, and a new place if it may move; its contents go with it. */
    method Mremap(arena: Arena, p: int, n: nat, n': nat, mayMove: bool) returns (r: int)
      modifies this`granted, this`calls, arena`mem
      ensures calls == old(calls) + [MremapCall(p, n, n', mayMove, r)]
      ensures r == FAIL ==> granted == old(granted) && arena.mem == old(arena.mem)
      ensures r != FAIL ==> n' > 0 && r % 16 == 0 && New(old(granted) - Bytes(p, n), r, n')
                            && granted == old(granted) - Bytes(p, n) + Bytes(r, n')
      ensures r != FAIL ==> if r == p then arena.mem == old(arena.mem)
                            else mayMove && Copied(old(arena.mem), arena.mem, p, r, if n < n' then n else n')
    {
      r := *;
      if r != FAIL && n' > 0 && r % 16 == 0 && New(granted - Bytes(p, n), r, n')
         && (r == p || (mayMove && (r + n' <= p || p + n <= r))) {
        if r != p { arena.Copy(p, r, if n < n' then n else n'); }
        granted := granted - Bytes(p, n) + Bytes(r, n');
      } else {
        r := FAIL;
      }
      calls := calls + [MremapCall(p, n, n', mayMove, r)];
    }
  }
}
