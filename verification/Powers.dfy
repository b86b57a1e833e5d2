/** Powers of two, alignment and bitwise exclusive-or on the naturals. */
module Powers {

  function Pow2(k: nat): (r: nat)
    ensures r > 0
  {
    if k == 0 then 1 else 2 * Pow2(k - 1)
  }

  /** The low k bits of o are clear. */
  predicate Aligned(o: int, k: nat) {
    o >= 0 && (k == 0 || (o % 2 == 0 && Aligned(o / 2, k - 1)))
  }

  predicate BitSet(o: nat, k: nat) {
    if k == 0 then o % 2 == 1 else BitSet(o / 2, k - 1)
  }

  /** Bitwise exclusive-or, bit by bit from the lowest one. */
  function Xor(a: nat, b: nat): nat {
    if a == 0 && b == 0 then 0
    else 2 * Xor(a / 2, b / 2) + (a % 2 + b % 2) % 2
  }

  /** Two power-of-two regions share no address. */
  predicate Apart(o: int, k: nat, p: int, j: nat) {
    o + Pow2(k) <= p || p + Pow2(j) <= o
  }

  /** The region (o, k) lies inside the region (p, j). */
  predicate Inside(o: int, k: nat, p: int, j: nat) {
    p <= o && o + Pow2(k) <= p + Pow2(j)
  }

  lemma {:induction false} Pow2Monotone(j: nat, k: nat)
    requires j <= k
    ensures Pow2(j) <= Pow2(k)
    decreases k
  {
    if j < k {
      Pow2Monotone(j, k - 1);
    }
  }

  /** q doubled k times. */
  function Shifted(q: nat, k: nat): nat {
    if k == 0 then q else 2 * Shifted(q, k - 1)
  }

  lemma {:induction false} AlignedQuotient(o: int, k: nat) returns (q: nat)
    requires Aligned(o, k)
    ensures o == Shifted(q, k)
    decreases k
  {
    if k == 0 {
      q := o;
    } else {
      q := AlignedQuotient(o / 2, k - 1);
    }
  }

  lemma {:induction false} ShiftedAligned(q: nat, k: nat)
    ensures Aligned(Shifted(q, k), k)
  {
    if k > 0 {
      ShiftedAligned(q, k - 1);
    }
  }

  lemma {:induction false} ShiftedIsProduct(q: nat, k: nat)
    ensures Shifted(q, k) == q * Pow2(k)
  {
    if k > 0 {
      ShiftedIsProduct(q, k - 1);
      assert 2 * (q * Pow2(k - 1)) == q * Pow2(k);
    }
  }

  /** The aligned offsets are the multiples of 2^k. */
  lemma AlignedIffMultiple(o: int, k: nat)
    ensures Aligned(o, k) <==> exists q: nat :: o == q * Pow2(k)
  {
    if Aligned(o, k) {
      var q := AlignedQuotient(o, k);
      ShiftedIsProduct(q, k);
      assert o == q * Pow2(k);
    }
    if q: nat :| o == q * Pow2(k) {
      ShiftedIsProduct(q, k);
      ShiftedAligned(q, k);
    }
  }

  lemma {:induction false} ZeroAligned(k: nat)
    ensures Aligned(0, k)
  {
    if k > 0 {
      ZeroAligned(k - 1);
    }
  }

  lemma {:induction false} XorZero(a: nat)
    ensures Xor(a, 0) == a
    decreases a
  {
    if a > 0 {
      XorZero(a / 2);
    }
  }

  /** XOR with a single bit adds that bit when it is clear and subtracts it when it is set. */
  lemma {:induction false} XorFlipsBit(a: nat, k: nat)
    ensures Xor(a, Pow2(k)) == if BitSet(a, k) then a - Pow2(k) else a + Pow2(k)
    decreases k
  {
    if k == 0 {
      XorZero(a / 2);
    } else {
      XorFlipsBit(a / 2, k - 1);
    }
  }

  lemma {:induction false} AlignedBit(o: nat, k: nat)
    requires Aligned(o, k)
    ensures Aligned(o, k + 1) <==> !BitSet(o, k)
    ensures BitSet(o, k) ==> o >= Pow2(k) && Aligned(o - Pow2(k), k + 1)
    decreases k
  {
    if k > 0 {
      AlignedBit(o / 2, k - 1);
    }
  }

  /** A region aligned one order up splits into two aligned halves. */
  lemma {:induction false} AlignedHalves(o: int, k: nat)
    requires Aligned(o, k + 1)
    ensures Aligned(o, k) && Aligned(o + Pow2(k), k) && !Aligned(o + Pow2(k), k + 1)
    decreases k
  {
    if k > 0 {
      AlignedHalves(o / 2, k - 1);
    }
  }

  /** An aligned region is one of the two halves of an aligned region one order up. */
  lemma AlignedParent(o: int, k: nat)
    requires Aligned(o, k)
    ensures Xor(o, Pow2(k)) == (if Aligned(o, k + 1) then o + Pow2(k) else o - Pow2(k))
    ensures !Aligned(o, k + 1) ==> Aligned(o - Pow2(k), k + 1)
  {
    XorFlipsBit(o, k);
    AlignedBit(o, k);
  }

  /** Aligned regions are nested or apart. */
  lemma {:induction false} AlignedNested(o: int, k: nat, p: int, j: nat)
    requires k <= j && Aligned(o, k) && Aligned(p, j)
    ensures Inside(o, k, p, j) || Apart(o, k, p, j)
    decreases k
  {
    if k > 0 {
      AlignedNested(o / 2, k - 1, p / 2, j - 1);
    }
  }
}
