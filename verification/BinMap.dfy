/** The 32-bit maps that record which bins are non-empty (malloc.c, "Operations on bin maps").
    A map is a `bv32`; an index is an ordinary number below 32. */
module BinMap {

  type Index = i: nat | i < 32

  /** An index as a shift distance. */
  function Distance(i: Index): (k: bv6)
    ensures k < 32
    decreases i, 0
  {
    if i == 0 then
      0
    else
      DistanceValue(i - 1);
      Distance(i - 1) + 1
  }

  lemma {:induction false} DistanceValue(i: Index)
    ensures Distance(i) as int == i
    decreases i, 1
  {
    if i > 0 {
      DistanceValue(i - 1);
    }
  }

  lemma SameWord(x: bv6, y: bv6)
    requires x as int == y as int
    ensures x == y
  {
  }

  function Single(k: bv6): bv32
    requires k < 32
  {
    (1 as bv32) << k
  }

  /** idx2bit */
  function IdxBit(i: Index): bv32 {
    Single(Distance(i))
  }

  /** smallbitsis_marked, treebitsis_marked */
  predicate Marked(bits: bv32, i: Index) {
    bits & IdxBit(i) != 0
  }

  /** mark_smallmap, mark_treemap */
  function Mark(bits: bv32, i: Index): bv32 {
    bits | IdxBit(i)
  }

  /** clear_smallmap, clear_treemap */
  function Clear(bits: bv32, i: Index): bv32 {
    bits & !IdxBit(i)
  }

  /** least_bit: isolates the least set bit */
  function LeastBit(x: bv32): bv32 {
    x & (0 - x)
  }

  /** left_bits: every bit strictly to the left of the least set bit */
  function LeftBits(x: bv32): bv32 {
    (x << 1) | (0 - (x << 1))
  }

  /** compute_bit2idx in its portable, branch-free form */
  function Bit2IdxWord(x: bv32): bv32 {
    var y0 := x - 1;
    var k0 := (y0 >> 12) & 16;
    var y1 := y0 >> (k0 as bv6);
    var k1 := (y1 >> 5) & 8;
    var y2 := y1 >> (k1 as bv6);
    var k2 := (y2 >> 2) & 4;
    var y3 := y2 >> (k2 as bv6);
    var k3 := (y3 >> 1) & 2;
    var y4 := y3 >> (k3 as bv6);
    var k4 := y4 & 1;
    var y5 := y4 >> (k4 as bv6);
    k0 + k1 + k2 + k3 + k4 + y5
  }

  // ---------------------------------------------------------------------------------------
  // Powers of two

  predicate PowerOfTwo(x: bv32) {
    x != 0 && x & (x - 1) == 0
  }

  lemma IdxBitIsPower(i: Index)
    ensures PowerOfTwo(IdxBit(i))
  {
  }

  lemma IdxBitIncreasing(i: Index, j: Index)
    requires i < j
    ensures IdxBit(i) < IdxBit(j)
  {
    hide Distance;
    DistanceOrder(i, j);
    DistanceOrder(j, i);
  }

  /** Different indices have disjoint bits. */
  lemma IdxBitsDisjoint(i: Index, j: Index)
    requires i != j
    ensures IdxBit(i) & IdxBit(j) == 0
  {
    IdxBitIsPower(i);
    IdxBitIsPower(j);
    if i < j { IdxBitIncreasing(i, j); } else { IdxBitIncreasing(j, i); }
  }

  lemma OrZero(x: bv32, y: bv32)
    ensures x | y == 0 <==> x == 0 && y == 0
  {
  }

  /** Marking sets the one bit and leaves the other 31 alone. */
  lemma MarkSets(m: bv32, i: Index, j: Index)
    ensures Marked(Mark(m, i), j) <==> i == j || Marked(m, j)
  {
    IdxBitIsPower(i);
    OrZero(m & IdxBit(j), IdxBit(i) & IdxBit(j));
    if i != j { IdxBitsDisjoint(i, j); }
  }

  /** Clearing resets the one bit and leaves the other 31 alone. */
  lemma ClearResets(m: bv32, i: Index, j: Index)
    ensures Marked(Clear(m, i), j) <==> i != j && Marked(m, j)
  {
    if i != j {
      IdxBitsDisjoint(i, j);
    }
  }

  // ---------------------------------------------------------------------------------------
  // The index of a single bit

  lemma Bit2IdxInverts(i: Index)
    ensures Bit2IdxWord(IdxBit(i)) < 32 && Bit2IdxWord(IdxBit(i)) as int == i
  {
    hide Distance;
    DistanceValue(i);
  }

  lemma PowerHasIndex(p: bv32) returns (i: Index)
    requires PowerOfTwo(p)
    ensures p == IdxBit(i)
  {
    hide Distance, Single, Bit2IdxWord, PowerOfTwo;
    var k := SingleOfPower(p);
    i := k as int;
    DistanceValue(i);
    SameWord(Distance(i), k);
  }

  lemma SingleOfPower(p: bv32) returns (k: bv6)
    requires PowerOfTwo(p)
    ensures k < 32 && p == Single(k)
  {
    k := Bit2IdxWord(p) as bv6;
  }

  lemma IdxOfPower(p: bv32)
    requires PowerOfTwo(p)
    ensures Bit2IdxWord(p) < 32 && IdxBit(Bit2IdxWord(p) as int) == p
  {
    var i := PowerHasIndex(p);
    Bit2IdxInverts(i);
  }

  /** compute_bit2idx: the index of a single set bit */
  function Bit2Idx(p: bv32): (i: Index)
    requires PowerOfTwo(p)
    ensures IdxBit(i) == p
  {
    IdxOfPower(p);
    Bit2IdxWord(p) as int
  }

  /** The index that least_bit and compute_bit2idx extract from a non-zero map. */
  function LeastIndex(x: bv32): (i: Index)
    requires x != 0
    ensures Marked(x, i) && forall j: Index :: j < i ==> !Marked(x, j)
  {
    LeastIsLeast(x);
    Bit2Idx(LeastBit(x))
  }

  lemma LeastIsLeast(x: bv32)
    requires x != 0 && PowerOfTwo(LeastBit(x))
    ensures var i := Bit2Idx(LeastBit(x)); Marked(x, i) && forall j: Index :: j < i ==> !Marked(x, j)
  {
    hide *;
    LeastAt(x, Bit2Idx(LeastBit(x)));
  }

  lemma LeastAt(x: bv32, i: Index)
    requires x != 0 && IdxBit(i) == LeastBit(x)
    ensures Marked(x, i) && forall j: Index :: j < i ==> !Marked(x, j)
  {
    forall j: Index | j < i ensures !Marked(x, j) {
      IdxBitIncreasing(j, i);
      IdxBitIsPower(j);
    }
  }

  /** A map with no marked index is zero. */
  lemma ZeroMap(m: bv32)
    ensures m == 0 <==> forall i: Index :: !Marked(m, i)
  {
    if m != 0 {
      var i := LeastIndex(m);
    }
  }

  lemma LeftBitsOfPower(p: bv32, q: bv32)
    requires PowerOfTwo(p) && PowerOfTwo(q)
    ensures LeftBits(p) & q == if p < q then q else 0
  {
  }

  /** A mask that covers bit j keeps it. */
  lemma MaskKeeps(x: bv32, m: bv32, j: Index)
    requires x & IdxBit(j) == IdxBit(j)
    ensures Marked(x & m, j) <==> Marked(m, j)
  {
  }

  /** A mask that misses bit j drops it. */
  lemma MaskDrops(x: bv32, m: bv32, j: Index)
    requires x & IdxBit(j) == 0
    ensures !Marked(x & m, j)
  {
  }

  lemma LeftBitsMask(i: Index, j: Index)
    ensures i < j ==> LeftBits(IdxBit(i)) & IdxBit(j) == IdxBit(j)
    ensures i >= j ==> LeftBits(IdxBit(i)) & IdxBit(j) == 0
  {
    IdxBitIsPower(i);
    IdxBitIsPower(j);
    hide *;
    LeftBitsOfPower(IdxBit(i), IdxBit(j));
    if i < j { IdxBitIncreasing(i, j); } else if j < i { IdxBitIncreasing(j, i); }
  }

  /** The bits of left_bits(idx2bit(i)) are exactly the indices above i. */
  lemma LeftBitsSelects(m: bv32, i: Index, j: Index)
    ensures Marked(LeftBits(IdxBit(i)) & m, j) <==> i < j && Marked(m, j)
  {
    hide *;
    if i < j { LeftBitsKeep(m, i, j); } else { LeftBitsDrop(m, i, j); }
  }

  lemma LeftBitsKeep(m: bv32, i: Index, j: Index)
    requires i < j
    ensures Marked(LeftBits(IdxBit(i)) & m, j) <==> Marked(m, j)
  {
    hide *;
    LeftBitsMask(i, j);
    MaskKeeps(LeftBits(IdxBit(i)), m, j);
  }

  lemma LeftBitsDrop(m: bv32, i: Index, j: Index)
    requires j <= i
    ensures !Marked(LeftBits(IdxBit(i)) & m, j)
  {
    hide *;
    LeftBitsMask(i, j);
    MaskDrops(LeftBits(IdxBit(i)), m, j);
  }

  /** The search for the next marked index above b, as tmalloc_large and dlmalloc do it. */
  function LeftOf(m: bv32, b: Index): (left: bv32)
    ensures forall j: Index :: Marked(left, j) <==> b < j && Marked(m, j)
  {
    LeftOfSelects(m, b);
    LeftBits(IdxBit(b)) & m
  }

  lemma LeftOfSelects(m: bv32, b: Index)
    ensures forall j: Index :: Marked(LeftBits(IdxBit(b)) & m, j) <==> b < j && Marked(m, j)
  {
    hide *;
    forall j: Index ensures Marked(LeftBits(IdxBit(b)) & m, j) <==> b < j && Marked(m, j) {
      LeftBitsSelects(m, b, j);
    }
  }

  // ---------------------------------------------------------------------------------------
  // The smallbin search of dlmalloc: smallbits = smallmap >> idx

  function SmallBits(m: bv32, i: Index): bv32 {
    Down(m, Distance(i))
  }

  function Down(m: bv32, k: bv6): bv32
    requires k < 32
  {
    m >> k
  }

  /** What is left of a map that is shifted right and back. */
  function High(m: bv32, k: bv6): bv32
    requires k < 32
  {
    (m >> k) << k
  }

  /** (smallbits << idx) & left_bits(idx2bit(idx)) */
  function LeftSmallBits(m: bv32, i: Index): bv32 {
    High(m, Distance(i)) & LeftBits(IdxBit(i))
  }

  lemma DistanceOrder(i: Index, j: Index)
    ensures i <= j <==> Distance(i) <= Distance(j)
  {
    hide Distance;
    DistanceValue(i);
    DistanceValue(j);
  }

  lemma DistanceNext(i: Index)
    requires i < 31
    ensures Distance(i + 1) == Distance(i) + 1 && Distance(i) < 31
  {
    hide Distance;
    DistanceValue(i);
    DistanceValue(i + 1);
    SameWord(Distance(i + 1), Distance(i) + 1);
  }

  lemma ShiftedWord(m: bv32, k: bv6, j: bv6)
    requires k < 32 && j < 32
    ensures ((m >> k) << k) & ((1 as bv32) << j) == if k <= j then m & ((1 as bv32) << j) else 0
  {
  }

  lemma ShiftedBack(m: bv32, k: bv6, j: bv6)
    requires k < 32 && j < 32
    ensures High(m, k) & Single(j) == if k <= j then m & Single(j) else 0
  {
    ShiftedWord(m, k, j);
  }

  lemma ShiftKeepsZero(x: bv32, k: bv6)
    requires k < 32
    ensures (x & 1) << k == 0 <==> x & 1 == 0
  {
  }

  lemma LowBit(m: bv32, k: bv6)
    requires k < 32
    ensures (m >> k) & 1 != 0 <==> m & ((1 as bv32) << k) != 0
  {
    ShiftedBack(m, k, k);
    ShiftKeepsZero(m >> k, k);
  }

  lemma SmallBitsFirst(m: bv32, i: Index)
    ensures SmallBits(m, i) & 1 != 0 <==> Marked(m, i)
  {
    hide Distance;
    LowBit(m, Distance(i));
  }

  lemma SmallBitsSecond(m: bv32, i: Index)
    requires i < 31
    ensures SmallBits(m, i) & 2 != 0 <==> SmallBits(m, i + 1) & 1 != 0
  {
    hide Distance;
    DistanceNext(i);
  }

  /** The low bits of smallbits are bins idx and idx + 1; ~smallbits & 1 says which one to use. */
  lemma SmallBitsLow(m: bv32, i: Index)
    requires i < 31
    ensures SmallBits(m, i) & 3 != 0 <==> Marked(m, i) || Marked(m, i + 1)
    ensures (!SmallBits(m, i)) & 1 == if Marked(m, i) then 0 else 1
  {
    hide *;
    SmallBitsFirst(m, i);
    SmallBitsFirst(m, i + 1);
    SmallBitsSecond(m, i);
  }

  lemma MarkedIs(m: bv32, j: Index)
    ensures Marked(m, j) <==> m & Single(Distance(j)) != 0
  {
    hide Distance, Single;
  }

  /** Shifting right and back drops the bits below i. */
  lemma DroppedLow(m: bv32, i: Index, j: Index)
    ensures Marked(High(m, Distance(i)), j) <==> i <= j && Marked(m, j)
  {
    hide *;
    DistanceOrder(i, j);
    MarkedIs(m, j);
    MarkedIs(High(m, Distance(i)), j);
    ShiftedBack(m, Distance(i), Distance(j));
  }

  /** No bin from idx on is marked when smallbits is zero, and only then. */
  lemma SmallBitsZero(m: bv32, i: Index)
    ensures SmallBits(m, i) == 0 <==> forall j: Index | i <= j :: !Marked(m, j)
  {
    hide *;
    if SmallBits(m, i) == 0 {
      forall j: Index | i <= j ensures !Marked(m, j) {
        NothingLeft(m, i, j);
      }
    } else {
      var j := SomethingLeft(m, i);
    }
  }

  lemma SomethingLeft(m: bv32, i: Index) returns (j: Index)
    requires SmallBits(m, i) != 0
    ensures i <= j && Marked(m, j)
  {
    hide High, Down, Distance, Marked;
    ShiftNotLost(m, Distance(i));
    j := LeastIndex(High(m, Distance(i)));
    DroppedLow(m, i, j);
  }

  lemma NothingLeft(m: bv32, i: Index, j: Index)
    requires SmallBits(m, i) == 0 && i <= j
    ensures !Marked(m, j)
  {
    hide Distance;
    DistanceOrder(i, j);
  }

  lemma ShiftNotLost(m: bv32, k: bv6)
    requires k < 32 && Down(m, k) != 0
    ensures High(m, k) != 0
  {
  }

  /** The search above idx finds exactly the marked bins above idx. */
  lemma LeftSmallBitsSelects(m: bv32, i: Index)
    ensures forall j: Index :: Marked(LeftSmallBits(m, i), j) <==> i < j && Marked(m, j)
  {
    hide *;
    forall j: Index ensures Marked(LeftSmallBits(m, i), j) <==> i < j && Marked(m, j) {
      LeftSmallBit(m, i, j);
    }
  }

  lemma LeftSmallBit(m: bv32, i: Index, j: Index)
    ensures Marked(LeftSmallBits(m, i), j) <==> i < j && Marked(m, j)
  {
    hide LeftBits, IdxBit, Marked, Distance, High;
    var x := High(m, Distance(i));
    LeftBitsSelects(x, i, j);
    DroppedLow(m, i, j);
  }

  /** If smallbits is non-zero but its low bits are clear, there is a bin to the left. */
  lemma LeftSmallBitsFound(m: bv32, i: Index)
    requires i < 31 && SmallBits(m, i) != 0 && SmallBits(m, i) & 3 == 0
    ensures LeftSmallBits(m, i) != 0
  {
    hide LeftBits, IdxBit, SmallBits, LeftSmallBits, Marked;
    SmallBitsLow(m, i);
    SmallBitsZero(m, i);
    LeftSmallBitsSelects(m, i);
    ZeroMap(LeftSmallBits(m, i));
  }
}
