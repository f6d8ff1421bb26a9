/** Sixteen-bit registers as polynomials over GF(2), modulo x^16 + x^12 + x^5 + 1. */
module Polynomial {

  const GENERATOR: bv16 := 0x1021

  /** The bits are wrapped up so that the algebra below never looks inside them. */
  datatype Poly = Poly(bits: bv16)

  const ZERO := Poly(0)

  function Add(p: Poly, q: Poly): Poly {
    Poly(p.bits ^ q.bits)
  }

  /** Multiplication by x modulo the generator polynomial. */
  function TimesX(p: Poly): Poly {
    Poly((p.bits << 1) ^ ((p.bits >> 15) * GENERATOR))
  }

  /** Multiplication by x^8. */
  function TimesX8(p: Poly): Poly {
    TimesX(TimesX(TimesX(TimesX(TimesX(TimesX(TimesX(TimesX(p))))))))
  }

  /** One byte, moved to the high end of the register. */
  function High(w: Poly): Poly {
    Poly(w.bits << 8)
  }

  /** The register p after mixing in the byte held in the low eight bits of w. */
  function Mix(p: Poly, w: Poly): Poly {
    TimesX8(Add(p, High(w)))
  }

  predicate IsByte(p: Poly) {
    p.bits < 0x100
  }

  /** The branch of the source's inner loop multiplies by x. */
  lemma BranchIsTimesX(c: bv16)
    ensures TimesX(Poly(c)) == Poly(if c & 0x8000 != 0 then (c << 1) ^ 0x1021 else c << 1)
  {
    if c & 0x8000 != 0 {
      assert c >> 15 == 1;
    } else {
      assert c >> 15 == 0;
    }
  }

  // ---------- Addition ----------

  lemma AddZero(p: Poly)
    ensures Add(p, ZERO) == p
  {}

  lemma AddDifference(p: Poly, q: Poly)
    ensures q == Add(p, Add(p, q))
  {}

  lemma AddNonZero(p: Poly, e: Poly)
    requires e != ZERO
    ensures Add(p, e) != p
  {}

  lemma DifferenceNonZero(p: Poly, q: Poly)
    requires p != q
    ensures Add(p, q) != ZERO
  {}

  lemma AddShuffle(p: Poly, e: Poly, w: Poly, d: Poly)
    ensures Add(Add(p, e), Add(w, d)) == Add(Add(p, w), Add(e, d))
  {}

  lemma ByteDifference(p: Poly, q: Poly)
    requires IsByte(p) && IsByte(q)
    ensures IsByte(Add(p, q))
  {}

  // ---------- Mixing is linear, so an error travels on its own ----------

  lemma TimesXLinear(p: Poly, q: Poly)
    ensures TimesX(Add(p, q)) == Add(TimesX(p), TimesX(q))
  {}

  lemma HighLinear(w: Poly, d: Poly)
    ensures High(Add(w, d)) == Add(High(w), High(d))
  {}

  lemma TimesX4Linear(p: Poly, q: Poly)
    ensures TimesX(TimesX(TimesX(TimesX(Add(p, q))))) ==
            Add(TimesX(TimesX(TimesX(TimesX(p)))), TimesX(TimesX(TimesX(TimesX(q)))))
  {
    hide *;
    TimesXLinear(p, q);
    TimesXLinear(TimesX(p), TimesX(q));
    TimesXLinear(TimesX(TimesX(p)), TimesX(TimesX(q)));
    TimesXLinear(TimesX(TimesX(TimesX(p))), TimesX(TimesX(TimesX(q))));
  }

  lemma TimesX8Linear(p: Poly, q: Poly)
    ensures TimesX8(Add(p, q)) == Add(TimesX8(p), TimesX8(q))
  {
    hide TimesX, Add;
    TimesX4Linear(p, q);
    TimesX4Linear(TimesX(TimesX(TimesX(TimesX(p)))), TimesX(TimesX(TimesX(TimesX(q)))));
  }

  lemma MixLinear(p: Poly, e: Poly, w: Poly, d: Poly)
    ensures Mix(Add(p, e), Add(w, d)) == Add(Mix(p, w), Mix(e, d))
  {
    hide TimesX8, Add, High;
    HighLinear(w, d);
    AddShuffle(p, e, High(w), High(d));
    TimesX8Linear(Add(p, High(w)), Add(e, High(d)));
  }

  lemma MixNonZero(e: Poly)
    requires e != ZERO
    ensures Mix(e, ZERO) != ZERO
  {}

  lemma MixInjective(p: Poly, q: Poly, w: Poly)
    requires p != q
    ensures Mix(p, w) != Mix(q, w)
  {
    hide *;
    var e := Add(p, q);
    DifferenceNonZero(p, q);
    AddDifference(p, q);
    AddZero(w);
    MixLinear(p, e, w, ZERO);
    MixNonZero(e);
    AddNonZero(Mix(p, w), Mix(e, ZERO));
  }

  /** What one byte error d turns a register's error e into. */
  lemma ErrorStep(p: Poly, e: Poly, w: Poly, d: Poly)
    ensures Mix(Add(p, e), Add(w, d)) == Add(Mix(p, w), Mix(e, d))
    ensures Mix(p, Add(w, d)) == Add(Mix(p, w), Mix(ZERO, d))
  {
    hide *;
    MixLinear(p, e, w, d);
    AddZero(p);
    MixLinear(p, ZERO, w, d);
  }

  lemma TwoByteResidue(d0: Poly, d1: Poly)
    requires IsByte(d0) && IsByte(d1) && (d0 != ZERO || d1 != ZERO)
    ensures Mix(Mix(ZERO, d0), d1) != ZERO
  {}

  lemma TwoBytesDiffer(p: Poly, w0: Poly, w1: Poly, d0: Poly, d1: Poly)
    requires IsByte(d0) && IsByte(d1) && (d0 != ZERO || d1 != ZERO)
    ensures Mix(Mix(p, Add(w0, d0)), Add(w1, d1)) != Mix(Mix(p, w0), w1)
  {
    hide *;
    var e := Mix(ZERO, d0);
    ErrorStep(p, ZERO, w0, d0);
    ErrorStep(Mix(p, w0), e, w1, d1);
    TwoByteResidue(d0, d1);
    AddNonZero(Mix(Mix(p, w0), w1), Mix(e, d1));
  }

  lemma OneByteResidue(d: Poly)
    requires IsByte(d) && d != ZERO
    ensures Mix(ZERO, d) != ZERO
  {}

  lemma OneByteDiffers(p: Poly, w: Poly, d: Poly)
    requires IsByte(d) && d != ZERO
    ensures Mix(p, Add(w, d)) != Mix(p, w)
  {
    hide *;
    ErrorStep(p, ZERO, w, d);
    OneByteResidue(d);
    AddNonZero(Mix(p, w), Mix(ZERO, d));
  }

  /** Three byte errors, not all zero, that miss the first k bits of the first byte and all but the first k of
      the third: sixteen adjacent bits are left. */
  predicate IsBurst(d0: Poly, d1: Poly, d2: Poly, k: bv16) {
    && k < 8 && IsByte(d0) && IsByte(d1) && IsByte(d2)
    && (d0 != ZERO || d1 != ZERO || d2 != ZERO)
    && d0.bits < 0x100 >> k && d2.bits & (0xFF >> k) == 0
  }

  lemma BurstResidue(d0: Poly, d1: Poly, d2: Poly, k: bv16)
    requires IsBurst(d0, d1, d2, k)
    ensures Mix(Mix(Mix(ZERO, d0), d1), d2) != ZERO
  {}

  lemma BurstDiffers(p: Poly, w0: Poly, w1: Poly, w2: Poly, d0: Poly, d1: Poly, d2: Poly, k: bv16)
    requires IsBurst(d0, d1, d2, k)
    ensures Mix(Mix(Mix(p, Add(w0, d0)), Add(w1, d1)), Add(w2, d2)) != Mix(Mix(Mix(p, w0), w1), w2)
  {
    hide *;
    var e1 := Mix(ZERO, d0);
    var e2 := Mix(e1, d1);
    ErrorStep(p, ZERO, w0, d0);
    ErrorStep(Mix(p, w0), e1, w1, d1);
    ErrorStep(Mix(Mix(p, w0), w1), e2, w2, d2);
    BurstResidue(d0, d1, d2, k);
    AddNonZero(Mix(Mix(Mix(p, w0), w1), w2), Mix(e2, d2));
  }
}
