/** The mapping from the size of a large chunk to its treebin (malloc.c, "Indexing Bins"). */
module TreeIndex {
  import opened Words

  const NTREEBINS: nat := 32
  const MIN_LARGE_SIZE: nat := 256
  const UINT: int := 0x1_0000_0000

  type Bin = i: nat | i < NTREEBINS

  // The masked right shift `(x >> 16) & b` of the portable form, for a one-bit mask b.
  function ShiftMask(x: int, b: nat): nat
    requires b in {2, 4, 8}
  {
    var y := (x % UINT) / 0x1_0000;
    if (if b == 8 then y / 8 else if b == 4 then y / 4 else y / 2) % 2 == 1 then b else 0
  }

  /** compute_tree_index, portable form: 32-bit unsigned arithmetic with deliberate underflow. */
  function ComputeTreeIndex(s: nat): (i: Bin)
    requires s < WORD
    ensures s < MIN_LARGE_SIZE ==> i == 0
  {
    var x := s / 256;
    if x == 0 then 0
    else if x > 0xFFFF then NTREEBINS - 1
    else
      var k := LeadingBit(x);
      LeadingBitFound(x);
      2 * k + Hi(s, k + 7) % 2
  }

  /** One comparison of the search: the shift it chooses, and the operand shifted by it. */
  function Normalize(y: nat, t: nat, b: nat): (nat, nat)
    requires b in {2, 4, 8}
  {
    var n := ShiftMask(y - t, b);
    (n, Shl(y, n) % UINT)
  }

  /** The position of the leading one of a 16-bit number, by three masked comparisons. */
  function LeadingBit(y0: nat): int
    requires 0 < y0 <= 0xFFFF
  {
    var (n0, y1) := Normalize(y0, 0x100, 8);
    var (k1, y2) := Normalize(y1, 0x1000, 4);
    var (k2, y3) := Normalize(y2, 0x4000, 2);
    14 - (n0 + k1 + k2) + y3 / 0x8000
  }

  /** The underflowing comparison is exact on 16-bit operands. */
  lemma ShiftMaskCompares(y: nat, t: nat, b: nat)
    requires y <= 0xFFFF && 0 < t <= 0xFFFF && b in {2, 4, 8}
    ensures ShiftMask(y - t, b) == if y < t then b else 0
  {
    if y < t {
      assert (y - t) % UINT == UINT + y - t;
      assert (UINT + y - t) / 0x1_0000 == 0xFFFF;
    }
  }

  lemma ScaledDown(y: nat, t: nat, e: nat)
    requires e in {4, 0x10, 0x100} && t * e == 0x1_0000 && t <= y * e && y <= 0xFFFF
    ensures y < t ==> t <= y * e <= 0xFFFF
  {
  }

  lemma NormalizeShifts(y: nat, t: nat, b: nat)
    requires 0 < y <= 0xFFFF && 0 < t <= 0xFFFF && b in {2, 4, 8}
    requires t * Exp2(b) == 0x1_0000 && t <= y * Exp2(b)
    ensures Normalize(y, t, b) == if y < t then (b, y * Exp2(b)) else (0, y)
    ensures t <= Normalize(y, t, b).1 <= 0xFFFF
  {
    ShiftMaskCompares(y, t, b);
    Exp2Table();
    hide ShiftMask, Exp2;
    ScaledDown(y, t, Exp2(b));
    if y < t {
      ShlIs(y, b);
      SmallWord(y * Exp2(b));
    } else {
      SmallWord(y);
    }
  }

  lemma SmallWord(x: nat)
    requires x <= 0xFFFF
    ensures x % UINT == x && (x * 1) % UINT == x
  {
  }

  lemma LeadingBitFound(y: nat)
    requires 0 < y <= 0xFFFF
    ensures 0 <= LeadingBit(y) <= 15
    ensures Exp2(LeadingBit(y)) <= y < 2 * Exp2(LeadingBit(y))
  {
    Exp2Table();
    hide Exp2, Normalize;
    NormalizeShifts(y, 0x100, 8);
    var y1 := Normalize(y, 0x100, 8).1;
    NormalizeShifts(y1, 0x1000, 4);
    var y2 := Normalize(y1, 0x1000, 4).1;
    NormalizeShifts(y2, 0x4000, 2);
    var y3 := Normalize(y2, 0x4000, 2).1;
    var a, b, c := Normalize(y, 0x100, 8).0, Normalize(y1, 0x1000, 4).0, Normalize(y2, 0x4000, 2).0;
    ScaledThrice(y, a, b, c, y1, y2, y3);
    NormalForm(y, a + b + c);
  }

  lemma ScaledThrice(y: nat, a: nat, b: nat, c: nat, y1: nat, y2: nat, y3: nat)
    requires y1 == y * Exp2(a) && y2 == y1 * Exp2(b) && y3 == y2 * Exp2(c)
    ensures y3 == y * Exp2(a + b + c)
  {
    Exp2Add(a, b);
    Exp2Add(a + b, c);
    hide Exp2;
    Associate(y, Exp2(a), Exp2(b), Exp2(c));
  }

  lemma Associate(y: int, a: int, b: int, c: int)
    ensures y * a * b * c == y * (a * b * c)
  {
  }

  lemma NormalForm(y: nat, n: nat)
    requires n in {0, 2, 4, 6, 8, 10, 12, 14} && 0x4000 <= y * Exp2(n) <= 0xFFFF
    ensures var k := 14 - n + (y * Exp2(n)) / 0x8000;
      0 <= k <= 15 && Exp2(k) <= y < 2 * Exp2(k)
  {
    Exp2Table();
    hide Exp2;
  }

  lemma Exp2Table()
    ensures Exp2(0) == 1 && Exp2(1) == 2 && Exp2(2) == 4 && Exp2(3) == 8
    ensures Exp2(4) == 0x10 && Exp2(5) == 0x20 && Exp2(6) == 0x40 && Exp2(7) == 0x80
    ensures Exp2(8) == 0x100 && Exp2(9) == 0x200 && Exp2(10) == 0x400 && Exp2(11) == 0x800
    ensures Exp2(12) == 0x1000 && Exp2(13) == 0x2000 && Exp2(14) == 0x4000 && Exp2(15) == 0x8000
  {
    Exp2Small();
    assert Exp2(9) == 2 * Exp2(8) && Exp2(10) == 2 * Exp2(9) && Exp2(11) == 2 * Exp2(10);
    assert Exp2(12) == 2 * Exp2(11) && Exp2(13) == 2 * Exp2(12) && Exp2(14) == 2 * Exp2(13);
    assert Exp2(15) == 2 * Exp2(14);
  }

  /** minsize_for_tree_index */
  function MinSize(i: Bin): nat {
    Exp2(i / 2 + 8) + if i % 2 == 1 then Exp2(i / 2 + 7) else 0
  }

  /** leftshift_for_tree_index */
  function LeftShift(i: Bin): (n: nat)
    ensures n < SIZE_T_BITSIZE
  {
    if i == NTREEBINS - 1 then 0 else 63 - (i / 2 + 6)
  }

  /** How many low bits of a size its bin leaves open. */
  function Width(i: Bin): (w: nat)
    ensures 7 <= w <= 64
    ensures w == SIZE_T_BITSIZE - LeftShift(i)
  {
    if i == NTREEBINS - 1 then 64 else i / 2 + 7
  }

  /** A size in the resolved range lies in the half of its power of two that its index names. */
  lemma BinOf(s: nat) returns (k: nat)
    requires MIN_LARGE_SIZE <= s < 0x100_0000
    ensures k <= 15
    ensures 2 * Exp2(k + 7) <= s < 4 * Exp2(k + 7)
    ensures ComputeTreeIndex(s) == 2 * k + (if s < 3 * Exp2(k + 7) then 0 else 1)
  {
    hide Exp2, LeadingBit;
    var x := s / 256;
    LeadingBitFound(x);
    k := LeadingBit(x);
    var q := Exp2(k + 7);
    assert 2 * q == Exp2(k) * 256 by {
      Exp2Small();
      Exp2Add(k, 8);
      Exp2Add(k + 7, 1);
    }
    assert 2 * q <= s < 4 * q;
    HiUnique(s, k + 7, if s < 3 * q then 2 else 3);
  }

  /** MinSize as multiples of the half power that the bin spans. */
  lemma MinSizeHalves(i: Bin)
    ensures MinSize(i) == (2 + i % 2) * Exp2(i / 2 + 7)
    ensures i < NTREEBINS - 1 ==> MinSize(i + 1) == (3 + i % 2) * Exp2(i / 2 + 7)
  {
    var q := Exp2(i / 2 + 7);
    assert Exp2(i / 2 + 8) == 2 * q;
    if i < NTREEBINS - 1 {
      if i % 2 == 0 {
        assert (i + 1) / 2 == i / 2 && (i + 1) % 2 == 1;
      } else {
        assert (i + 1) / 2 == i / 2 + 1 && (i + 1) % 2 == 0;
        assert Exp2(i / 2 + 9) == 4 * q;
      }
    }
    hide Exp2;
  }

  /** compute_tree_index and minsize_for_tree_index agree: a size lies between the least size of
      its bin and that of the next bin, the last bin being open. */
  lemma TreeIndexBrackets(s: nat)
    requires MIN_LARGE_SIZE <= s < WORD
    ensures var i := ComputeTreeIndex(s);
      MinSize(i) <= s && (i < NTREEBINS - 1 ==> s < MinSize(i + 1))
  {
    hide *;
    if s < 0x100_0000 { ResolvedBrackets(s); } else { LastBrackets(s); }
  }

  lemma ResolvedBrackets(s: nat)
    requires MIN_LARGE_SIZE <= s < 0x100_0000
    ensures var i := ComputeTreeIndex(s); MinSize(i) <= s && (i < NTREEBINS - 1 ==> s < MinSize(i + 1))
  {
    hide ComputeTreeIndex, Exp2, MinSize;
    var k := BinOf(s);
    var i, c := ComputeTreeIndex(s), if s < 3 * Exp2(k + 7) then 0 else 1;
    MinSizeHalves(i);
    assert i / 2 == k && i % 2 == c;
  }

  lemma LastBrackets(s: nat)
    requires 0x100_0000 <= s < WORD
    ensures ComputeTreeIndex(s) == NTREEBINS - 1 && MinSize(NTREEBINS - 1) <= s
  {
    hide LeadingBit;
    Exp2Table();
    assert Exp2(22) == 0x40_0000 by { Exp2Add(15, 7); }
    MinSizeHalves(NTREEBINS - 1);
    hide Exp2;
  }

  lemma MinSizeIncreasing(i: Bin, j: Bin)
    requires i < j
    ensures MinSize(i) < MinSize(j)
    decreases j
  {
    MinSizeHalves(j - 1);
    if i < j - 1 { MinSizeIncreasing(i, j - 1); }
  }

  /** compute_tree_index is monotone. */
  lemma TreeIndexMonotone(s: nat, t: nat)
    requires MIN_LARGE_SIZE <= s <= t < WORD
    ensures ComputeTreeIndex(s) <= ComputeTreeIndex(t)
  {
    hide *;
    TreeIndexBrackets(s);
    TreeIndexBrackets(t);
    var i, j := ComputeTreeIndex(s), ComputeTreeIndex(t);
    if j < i {
      if j + 1 < i { MinSizeIncreasing(j + 1, i); }
    }
  }

  /** The bin fixes every bit from Width upwards. */
  function BinPrefix(i: Bin): nat {
    if i == NTREEBINS - 1 then 0 else 2 + i % 2
  }

  lemma BinFixesPrefix(s: nat)
    requires MIN_LARGE_SIZE <= s < WORD
    ensures var i := ComputeTreeIndex(s); Hi(s, Width(i)) == BinPrefix(i)
  {
    hide ComputeTreeIndex, Exp2, MinSize, Hi;
    var i := ComputeTreeIndex(s);
    if i == NTREEBINS - 1 {
      Exp2At64();
      HiUnique(s, 64, 0);
    } else {
      TreeIndexBrackets(s);
      MinSizeHalves(i);
      HiUnique(s, Width(i), 2 + i % 2);
    }
  }

  /** leftshift_for_tree_index puts the first bit that the bin leaves open into the sign position:
      the bits above it are the same for all sizes of the bin, and both values of it occur. */
  lemma LeftShiftFindsFirstOpenBit(i: Bin)
    ensures var e := 63 - LeftShift(i);
      && (forall s: nat | MIN_LARGE_SIZE <= s < WORD && ComputeTreeIndex(s) == i ::
            Shl(s, LeftShift(i)) / 0x8000_0000_0000_0000 == Hi(s, e) % 2
            && Hi(s, e + 1) == BinPrefix(i))
      && (i < NTREEBINS - 1 ==>
            exists s: nat, t: nat :: MIN_LARGE_SIZE <= s < t < WORD
              && ComputeTreeIndex(s) == i && ComputeTreeIndex(t) == i
              && Hi(s, e) % 2 == 0 && Hi(t, e) % 2 == 1)
  {
    var e := 63 - LeftShift(i);
    forall s: nat | MIN_LARGE_SIZE <= s < WORD && ComputeTreeIndex(s) == i
      ensures Shl(s, LeftShift(i)) / 0x8000_0000_0000_0000 == Hi(s, e) % 2
      ensures Hi(s, e + 1) == BinPrefix(i)
    {
      SignBit(s, e);
      BinFixesPrefix(s);
    }
    if i < NTREEBINS - 1 {
      var s, t := OpenBitTakesBothValues(i);
    }
  }

  lemma IndexOfBracket(s: nat, i: Bin)
    requires MIN_LARGE_SIZE <= s < WORD && MinSize(i) <= s && (i < NTREEBINS - 1 ==> s < MinSize(i + 1))
    ensures ComputeTreeIndex(s) == i
  {
    hide *;
    TreeIndexBrackets(s);
    var j := ComputeTreeIndex(s);
    if i < j {
      if i + 1 < j { MinSizeIncreasing(i + 1, j); }
    } else if j < i {
      if j + 1 < i { MinSizeIncreasing(j + 1, i); }
    }
  }

  lemma OpenBitTakesBothValues(i: Bin) returns (s: nat, t: nat)
    requires i < NTREEBINS - 1
    ensures MIN_LARGE_SIZE <= s < t < WORD
    ensures ComputeTreeIndex(s) == i && ComputeTreeIndex(t) == i
    ensures Hi(s, 63 - LeftShift(i)) % 2 == 0 && Hi(t, 63 - LeftShift(i)) % 2 == 1
  {
    hide ComputeTreeIndex, MinSize, Exp2, Hi;
    var e, c := i / 2 + 6, 4 + 2 * (i % 2);
    s, t := OpenBitWitnesses(i, e, c);
    IndexOfBracket(s, i);
    IndexOfBracket(t, i);
    HiUnique(s, e, c);
    HiUnique(t, e, c + 1);
  }

  lemma OpenBitWitnesses(i: Bin, e: nat, c: nat) returns (s: nat, t: nat)
    requires i < NTREEBINS - 1 && e == i / 2 + 6 && c == 4 + 2 * (i % 2)
    ensures MIN_LARGE_SIZE <= MinSize(i) <= s < t < MinSize(i + 1) < WORD
    ensures s == c * Exp2(e) && t == (c + 1) * Exp2(e) == s + Exp2(e) && MinSize(i + 1) == t + Exp2(e)
  {
    hide Exp2, MinSize;
    MinSizeHalves(i);
    var p := Exp2(e);
    HalfPower(i, e);
    s := c * p;
    t := s + p;
    if i % 2 == 0 { assert c == 4; } else { assert c == 6; }
  }

  lemma HalfPower(i: Bin, e: nat)
    requires i < NTREEBINS - 1 && e == i / 2 + 6
    ensures Exp2(i / 2 + 7) == 2 * Exp2(e) && 64 <= Exp2(e) <= 0x20_0000
  {
    Exp2Table();
    Exp2Mono(6, e);
    Exp2Mono(e, 21);
    assert Exp2(21) == 0x20_0000 by { Exp2Add(15, 6); }
  }
}
