/** Population count of a 64-bit word (Rust's count_ones), and the facts
    about it that card sets rely on. */
module BitCount {
  type Word = bv64

  /** Bit i of x as a number. */
  function Bit(x: Word, i: bv8): (b: nat)
    requires i < 64
    ensures b <= 1
  {
    if (x >> i) & 1 == 1 then 1 else 0
  }

  /** The number of one bits among the lowest m bits of x. */
  function Count(x: Word, m: bv8): nat
    requires m <= 64
    decreases m
  {
    if m == 0 then 0 else Count(x, m - 1) + Bit(x, m - 1)
  }

  /** The number of one bits of x. */
  function CountOnes(x: Word): nat {
    Count(x, 64)
  }

  /** The lowest m bits. */
  function LowMask(m: bv8): Word
    requires m <= 64
  {
    !(0xFFFF_FFFF_FFFF_FFFF << m)
  }

  /** The lowest m bits of x are all zero. */
  predicate LowZero(x: Word, m: bv8)
    requires m <= 64
  {
    x & LowMask(m) == 0
  }

  //
  // Facts about single bits
  //

  lemma BitOfUnion(a: Word, b: Word, i: bv8)
    requires i < 64 && a & b == 0
    ensures Bit(a | b, i) == Bit(a, i) + Bit(b, i)
  {
  }

  lemma BitOfClear(x: Word, e: Word, i: bv8)
    requires i < 64 && x & e == e
    ensures Bit(x ^ e, i) + Bit(e, i) == Bit(x, i)
  {
  }

  lemma LowZeroStep(x: Word, m: bv8)
    requires 0 < m <= 64
    ensures LowZero(x, m) <==> LowZero(x, m - 1) && Bit(x, m - 1) == 0
  {
  }

  lemma LowZeroEnds(x: Word)
    ensures LowZero(x, 0) && (LowZero(x, 64) <==> x == 0)
  {
  }

  lemma BitSetHolds(x: Word, j: bv8)
    requires j < 64 && Bit(x, j) == 1
    ensures x & ((1 as bv64) << j) == (1 as bv64) << j
  {
  }

  lemma BitOfSingle(j: bv8, i: bv8)
    requires j < 64 && i < 64
    ensures Bit((1 as bv64) << j, i) == if i == j then 1 else 0
  {
  }

  //
  // Counting
  //

  /** No bit is counted exactly when the counted bits are all zero. */
  lemma {:induction false} CountZero(x: Word, m: bv8)
    requires m <= 64
    ensures Count(x, m) == 0 <==> LowZero(x, m)
    decreases m
  {
    if m == 0 {
      LowZeroEnds(x);
    } else {
      LowZeroStep(x, m);
      CountZero(x, m - 1);
    }
  }

  /** A word has no one bits exactly when it is zero. */
  lemma CountOnesZero(x: Word)
    ensures CountOnes(x) == 0 <==> x == 0
  {
    CountZero(x, 64);
    LowZeroEnds(x);
  }

  /** Some counted bit is set when the count is not zero. */
  lemma {:induction false} SomeBitSet(x: Word, m: bv8) returns (j: bv8)
    requires m <= 64 && Count(x, m) > 0
    ensures j < m && Bit(x, j) == 1
    decreases m
  {
    assert m > 0;
    if Bit(x, m - 1) == 1 {
      j := m - 1;
    } else {
      j := SomeBitSet(x, m - 1);
    }
  }

  /** A single shifted one is counted once if it lies among the counted
      bits. */
  lemma {:induction false} CountSingle(j: bv8, m: bv8)
    requires j < 64 && m <= 64
    ensures Count((1 as bv64) << j, m) == if j < m then 1 else 0
    decreases m
  {
    if m > 0 {
      BitOfSingle(j, m - 1);
      CountSingle(j, m - 1);
    }
  }

  /** Removing the bits of e from a word that holds them lowers the count by
      the count of e. */
  lemma {:induction false} CountClear(x: Word, e: Word, m: bv8)
    requires m <= 64 && x & e == e
    ensures Count(x ^ e, m) + Count(e, m) == Count(x, m)
    decreases m
  {
    if m > 0 {
      BitOfClear(x, e, m - 1);
      CountClear(x, e, m - 1);
    }
  }

  /** Clearing the bits of e from a word that holds them lowers the count
      by the count of e. */
  lemma CountOnesClearAll(x: Word, e: Word)
    requires x & e == e
    ensures CountOnes(x ^ e) + CountOnes(e) == CountOnes(x)
  {
    CountClear(x, e, 64);
  }

  lemma CountOnesSingle(j: bv8)
    requires j < 64
    ensures CountOnes((1 as bv64) << j) == 1
  {
    CountSingle(j, 64);
  }

  lemma XorZero(x: Word, e: Word)
    requires x ^ e == 0
    ensures x == e
  {
  }

  /** A word with exactly one bit set is a single shifted one. */
  lemma CountOnesOne(x: Word) returns (j: bv8)
    requires CountOnes(x) == 1
    ensures j < 64 && x == (1 as bv64) << j
  {
    j := SomeBitSet(x, 64);
    SingleAt(x, j);
  }

  /** A one-bit word with bit j set is the shifted one at j. */
  lemma SingleAt(x: Word, j: bv8)
    requires j < 64 && Bit(x, j) == 1 && CountOnes(x) == 1
    ensures x == (1 as bv64) << j
  {
    BitSetHolds(x, j);
    CountOnesSingle(j);
    OnlyBitLeft(x, (1 as bv64) << j);
  }

  /** A one-bit word holding a one-bit word is that word. */
  lemma OnlyBitLeft(x: Word, e: Word)
    requires x & e == e && CountOnes(x) == 1 && CountOnes(e) == 1
    ensures x == e
  {
    CountOnesClearAll(x, e);
    CountOnesZero(x ^ e);
    XorZero(x, e);
  }

  /** The count of a union of disjoint words is the sum of their counts. */
  lemma {:induction false} CountDisjointUnion(a: Word, b: Word, m: bv8)
    requires m <= 64 && a & b == 0
    ensures Count(a | b, m) == Count(a, m) + Count(b, m)
    decreases m
  {
    if m > 0 {
      BitOfUnion(a, b, m - 1);
      CountDisjointUnion(a, b, m - 1);
    }
  }

  lemma CountOnesDisjointUnion(a: Word, b: Word)
    requires a & b == 0
    ensures CountOnes(a | b) == CountOnes(a) + CountOnes(b)
  {
    CountDisjointUnion(a, b, 64);
  }
}
