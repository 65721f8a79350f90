/** Powers of two and the high bits of a size, over unbounded integers; `size_t` is 64 bits wide. */
module Words {

  const SIZE_T_BITSIZE: nat := 64
  const WORD: int := 0x1_0000_0000_0000_0000

  /** Reduction modulo the word size: what an unsigned operation leaves. */
  function Wrap(x: int): (r: nat)
    ensures r < WORD
    ensures 0 <= x < WORD ==> r == x
    ensures -WORD <= x < 0 ==> r == x + WORD
  {
    x % WORD
  }

  function Exp2(n: nat): (r: nat)
    ensures r > 0
  {
    if n == 0 then 1 else 2 * Exp2(n - 1)
  }

  lemma {:induction false} Exp2Add(a: nat, b: nat)
    ensures Exp2(a) * Exp2(b) == Exp2(a + b)
  {
    if a == 0 {
    } else {
      Exp2Add(a - 1, b);
      calc {
        Exp2(a) * Exp2(b);
        (2 * Exp2(a - 1)) * Exp2(b);
        2 * (Exp2(a - 1) * Exp2(b));
        2 * Exp2(a - 1 + b);
        Exp2(a + b);
      }
    }
  }

  lemma {:induction false} Exp2Mono(a: nat, b: nat)
    requires a <= b
    ensures Exp2(a) <= Exp2(b)
  {
    if a < b { Exp2Mono(a, b - 1); }
  }

  lemma Exp2At64()
    ensures Exp2(63) == 0x8000_0000_0000_0000 && Exp2(64) == WORD
  {
    Exp2Small();
    hide Exp2;
    Exp2Add(16, 16);
    Exp2Add(32, 32);
    Exp2Add(1, 63);
  }

  lemma Exp2Small()
    ensures Exp2(1) == 2 && Exp2(4) == 16 && Exp2(8) == 0x100 && Exp2(16) == 0x1_0000
  {
    Exp2Add(8, 8);
  }

  // Facts of multiplication, each stated once so that proofs can name the one they need.

  lemma MulMono(a: int, b: int, p: int)
    requires a <= b && 0 <= p
    ensures a * p <= b * p
  {
  }

  /** The bits of s from position e upwards. */
  function Hi(s: nat, e: nat): nat {
    if e == 0 then s else Hi(s, e - 1) / 2
  }

  /** The bits of s below position e. */
  function Low(s: nat, e: nat): (r: nat)
    ensures r < Exp2(e)
  {
    HiRange(s, e);
    s - Hi(s, e) * Exp2(e)
  }

  lemma {:induction false} HiRange(s: nat, e: nat)
    ensures Hi(s, e) * Exp2(e) <= s < Hi(s, e) * Exp2(e) + Exp2(e)
  {
    if e == 0 {
    } else {
      HiRange(s, e - 1);
      HalveScaled(Hi(s, e - 1), Exp2(e - 1));
    }
  }

  lemma HalveScaled(g: nat, p: nat)
    ensures g * p == (g / 2) * (2 * p) + (g % 2) * p
    ensures (g / 2) * (2 * p) <= g * p <= (g / 2) * (2 * p) + p
  {
    MulMono(0, g % 2, p);
    MulMono(g % 2, 1, p);
  }

  /** Hi is the quotient: it is determined by the dyadic interval that s lies in. */
  lemma HiUnique(s: nat, e: nat, q: nat)
    requires q * Exp2(e) <= s < q * Exp2(e) + Exp2(e)
    ensures Hi(s, e) == q
  {
    HiRange(s, e);
    Quotient(s, Exp2(e), Hi(s, e), q);
  }

  lemma Quotient(s: nat, p: nat, h: nat, q: nat)
    requires h * p <= s < h * p + p && q * p <= s < q * p + p
    ensures h == q
  {
    if h < q {
      MulMono(h + 1, q, p);
    } else if q < h {
      MulMono(q + 1, h, p);
    }
  }

  /** High bits order sizes. */
  lemma {:induction false} HiMono(s: nat, t: nat, e: nat)
    requires s <= t
    ensures Hi(s, e) <= Hi(t, e)
  {
    if e > 0 { HiMono(s, t, e - 1); }
  }

  /** Sizes that agree on their high bits agree on still higher ones. */
  lemma {:induction false} HiCoarser(s: nat, t: nat, e: nat, f: nat)
    requires e <= f && Hi(s, e) == Hi(t, e)
    ensures Hi(s, f) == Hi(t, f)
  {
    if e < f { HiCoarser(s, t, e, f - 1); }
  }

  /** Two different multiples of 16 differ at bit 4 or above. */
  lemma HiSeparates8(s: nat, t: nat, e: nat)
    requires s % 8 == 0 && t % 8 == 0 && e <= 3 && Hi(s, e) == Hi(t, e)
    ensures s == t
  {
    HiCoarser(s, t, e, 3);
    HiRange(s, 3);
    HiRange(t, 3);
    assert Exp2(3) == 8;
  }

  // ---------------------------------------------------------------------------------------
  // A size shifted left until a given bit is the sign bit

  /** s << n */
  function Shl(s: nat, n: nat): (r: nat)
    ensures r < WORD
  {
    if n == 0 then Wrap(s) else Wrap(2 * Shl(s, n - 1))
  }

  lemma {:induction false} ShlIs(s: nat, n: nat)
    ensures Shl(s, n) == Wrap(s * Exp2(n))
  {
    if n > 0 {
      ShlIs(s, n - 1);
      var y := s * Exp2(n - 1);
      assert s * Exp2(n) == 2 * y;
      WrapTwice(y);
    }
  }

  lemma WrapTwice(y: nat)
    ensures Wrap(2 * Wrap(y)) == Wrap(2 * y)
  {
  }

  /** The word whose sign bit is bit e of s, holding the bits of s from e downwards. */
  function SignWord(s: nat, e: nat): nat
    requires e < SIZE_T_BITSIZE
  {
    Shl(s, 63 - e)
  }

  /** (h * q + l) * p, where q * p is the modulus and l < q, reduces to l * p. */
  lemma ScaledRemainder(h: nat, q: nat, l: nat, p: nat, w: nat)
    requires l < q && 0 < p && q * p == w
    ensures (h * q + l) * p == h * w + l * p
    ensures 0 <= l * p < w
    ensures ((h * q + l) * p) % w == l * p
    ensures ((h * q + l) * p) / w == h
  {
    MulMono(0, l, p);
    DivMod(h, w, l * p);
  }

  lemma DivMod(h: nat, w: nat, r: nat)
    requires r < w
    ensures (h * w + r) % w == r && (h * w + r) / w == h
  {
    var x := h * w + r;
    assert x == (x / w) * w + x % w;
    Quotient(x, w, x / w, h);
  }

  lemma LowSplit(s: nat, e: nat)
    ensures Low(s, e + 1) == (Hi(s, e) % 2) * Exp2(e) + Low(s, e)
  {
    HalveScaled(Hi(s, e), Exp2(e));
  }

  /** The sign bit of the sign word is bit e of s. */
  lemma SignBit(s: nat, e: nat)
    requires e < SIZE_T_BITSIZE
    ensures SignWord(s, e) / 0x8000_0000_0000_0000 == Hi(s, e) % 2
  {
    hide Shl;
    ShlIs(s, 63 - e);
    var p := Exp2(63 - e);
    assert Wrap(s * p) == Low(s, e + 1) * p by {
      Exp2Add(e + 1, 63 - e);
      Exp2At64();
      ScaledRemainder(Hi(s, e + 1), Exp2(e + 1), Low(s, e + 1), p, WORD);
    }
    LowSplit(s, e);
    Exp2Add(e, 63 - e);
    Exp2At64();
    ScaledRemainder(Hi(s, e) % 2, Exp2(e), Low(s, e), p, Exp2(63));
    MulMono(Hi(s, e) % 2, 1, Exp2(63));
  }

}
