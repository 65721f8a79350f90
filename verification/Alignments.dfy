/** The alignments that internal_memalign works with: powers of two of at least MIN_CHUNK_SIZE. */
module Alignments {
  import opened Words
  import opened Chunks

  // 2^63
  const MAX_ALIGNMENT: nat := 0x8000_0000_0000_0000

  /** (a & (a - 1)) == 0, for a > 0 */
  predicate PowerOfTwo(a: nat) {
    a == 1 || (a > 0 && a % 2 == 0 && PowerOfTwo(a / 2))
  }

  lemma {:induction false} PowerOfExp2(e: nat)
    ensures PowerOfTwo(Exp2(e))
  {
    if e > 0 { PowerOfExp2(e - 1); }
  }

  lemma {:induction false} ExponentOf(a: nat) returns (e: nat)
    requires PowerOfTwo(a)
    ensures a == Exp2(e)
  {
    if a == 1 {
      e := 0;
    } else {
      var k := ExponentOf(a / 2);
      e := k + 1;
    }
  }

  /** Powers of two of at least 32 are multiples of 32. */
  lemma Exp2Of32(e: nat)
    requires e >= 5
    ensures Exp2(e) % 32 == 0 && Exp2(e) >= 32
  {
    Exp2Add(5, e - 5);
    Exp2Small();
    DivMod(Exp2(e - 5), 32, 0);
    Exp2Mono(5, e);
  }

  /** What the doubling loop has computed after i turns. */
  function Doubled(i: nat): nat {
    if i == 0 then 32 else Wrap(2 * Doubled(i - 1))
  }

  lemma {:induction false} DoubledIs(i: nat)
    ensures Doubled(i) == if i <= 58 then Exp2(i + 5) else 0
  {
    if i == 0 {
      Exp2Small();
    } else {
      DoubledIs(i - 1);
      Exp2At64();
      if i <= 58 { Exp2Mono(i + 5, 63); Exp2Below64(i + 5); }
    }
  }

  lemma Exp2Below64(e: nat)
    requires e <= 63
    ensures Exp2(e) < WORD
  {
    Exp2Mono(e, 63);
    Exp2At64();
  }

  /** The loop that rounds an alignment up ends for alignments up to 2^63, and only for them. */
  lemma DoublingEnds(alignment: nat)
    ensures (exists i: nat :: Doubled(i) >= alignment) <==> alignment <= MAX_ALIGNMENT
  {
    hide Exp2;
    Exp2At64();
    DoubledIs(58);
    if alignment <= MAX_ALIGNMENT { assert Doubled(58) >= alignment; }
    forall i: nat ensures Doubled(i) <= MAX_ALIGNMENT {
      DoubledIs(i);
      if i <= 58 { Exp2Mono(i + 5, 63); }
    }
  }

  /** internal_memalign: at least MIN_CHUNK_SIZE, and a power of two. */
  method RoundAlignment(alignment0: nat) returns (alignment: nat)
    requires alignment0 <= MAX_ALIGNMENT
    ensures PowerOfTwo(alignment) && alignment >= alignment0 && alignment >= MIN_CHUNK_SIZE
      && alignment <= MAX_ALIGNMENT && alignment % 16 == 0
    ensures alignment == 32 || alignment < 2 * alignment0
    ensures PowerOfTwo(alignment0) && alignment0 >= 32 ==> alignment == alignment0
  {
    hide Exp2, PowerOfTwo, Wrap;
    FirstPower();
    alignment := alignment0;
    if alignment < MIN_CHUNK_SIZE {
      alignment := MIN_CHUNK_SIZE;
    }
    if !PowerOfTwo(alignment) {
      ghost var e := 5;
      var a := 32;
      while a < alignment
        invariant 5 <= e <= 63 && a == Exp2(e) && (a == 32 || a < 2 * alignment)
        decreases 63 - e
      {
        DoubleStep(e);
        a := Wrap(2 * a);
        e := e + 1;
      }
      alignment := a;
      PowerFacts(e);
    } else {
      ghost var e := ExponentOf(alignment);
      LargePower(e);
    }
  }

  lemma FirstPower()
    ensures Exp2(5) == 32 && MIN_CHUNK_SIZE < MAX_ALIGNMENT && PowerOfTwo(32)
  {
    Exp2Small();
    Exp2At64();
    PowerOfExp2(5);
  }

  lemma DoubleStep(e: nat)
    requires e <= 63
    ensures e == 63 ==> Exp2(e) == MAX_ALIGNMENT
    ensures e < 63 ==> Wrap(2 * Exp2(e)) == Exp2(e + 1)
  {
    Exp2At64();
    if e < 63 { Exp2Below64(e + 1); }
  }

  lemma PowerFacts(e: nat)
    requires 5 <= e <= 63
    ensures PowerOfTwo(Exp2(e)) && MIN_CHUNK_SIZE <= Exp2(e) <= MAX_ALIGNMENT && Exp2(e) % 16 == 0
  {
    hide Exp2, PowerOfTwo;
    Exp2At64();
    PowerOfExp2(e);
    Exp2Of32(e);
    Exp2Mono(e, 63);
  }

  lemma LargePower(e: nat)
    requires Exp2(e) >= 32
    ensures Exp2(e) % 16 == 0
  {
    Exp2Small();
    if e < 5 { Exp2Mono(e, 4); }
    hide Exp2;
    Exp2Of32(e);
  }
}
