/// Bitwise operations on words, and what they do bit by bit.

module Bits {
  import opened Words

  const FIELD_BITS: nat := 64

  function Bit(w: nat, i: nat): bool {
    if i == 0 then w % 2 == 1 else Bit(w / 2, i - 1)
  }

  function And(a: nat, b: nat): nat {
    if a == 0 || b == 0 then 0
    else (if a % 2 == 1 && b % 2 == 1 then 1 else 0) + 2 * And(a / 2, b / 2)
  }

  function Or(a: nat, b: nat): nat {
    if a == 0 && b == 0 then 0
    else (if a % 2 == 1 || b % 2 == 1 then 1 else 0) + 2 * Or(a / 2, b / 2)
  }

  /// `a & !b`.
  function AndNot(a: nat, b: nat): nat {
    if a == 0 then 0
    else (if a % 2 == 1 && b % 2 == 0 then 1 else 0) + 2 * AndNot(a / 2, b / 2)
  }

  /// `count_ones`.
  function Ones(w: nat): nat {
    if w == 0 then 0 else w % 2 + Ones(w / 2)
  }

  /// `mask_n(n) << b`.
  function Mask(n: nat, b: nat): nat
    decreases b
  {
    if b == 0 then Pow2(n) - 1 else 2 * Mask(n, b - 1)
  }

  // ----- bit by bit ---------------------------------------------------------

  lemma {:induction false} BitOfZero(i: nat)
    ensures !Bit(0, i)
  {
    if i > 0 { BitOfZero(i - 1); }
  }

  lemma {:induction false} BitAnd(a: nat, b: nat, i: nat)
    ensures Bit(And(a, b), i) <==> Bit(a, i) && Bit(b, i)
    decreases i
  {
    if a == 0 || b == 0 { BitOfZero(i); }
    else if i > 0 { BitAnd(a / 2, b / 2, i - 1); }
  }

  lemma {:induction false} BitOr(a: nat, b: nat, i: nat)
    ensures Bit(Or(a, b), i) <==> Bit(a, i) || Bit(b, i)
    decreases i
  {
    if a == 0 && b == 0 { BitOfZero(i); }
    else if i > 0 { BitOr(a / 2, b / 2, i - 1); }
  }

  lemma {:induction false} BitAndNot(a: nat, b: nat, i: nat)
    ensures Bit(AndNot(a, b), i) <==> Bit(a, i) && !Bit(b, i)
    decreases i
  {
    if a == 0 { BitOfZero(i); }
    else if i > 0 { BitAndNot(a / 2, b / 2, i - 1); }
  }

  lemma {:induction false} BitLowMask(n: nat, i: nat)
    ensures Bit(Pow2(n) - 1, i) <==> i < n
    decreases i
  {
    if n == 0 { BitOfZero(i); }
    else if i > 0 {
      BitLowMask(n - 1, i - 1);
      assert (Pow2(n) - 1) / 2 == Pow2(n - 1) - 1;
    }
  }

  lemma {:induction false} BitMask(n: nat, b: nat, i: nat)
    ensures Bit(Mask(n, b), i) <==> b <= i < b + n
    decreases b
  {
    if b == 0 { BitLowMask(n, i); }
    else if i > 0 { BitMask(n, b - 1, i - 1); }
  }

  lemma {:induction false} SomeBit(w: nat) returns (i: nat)
    requires w != 0
    ensures Bit(w, i)
  {
    if w % 2 == 1 {
      i := 0;
    } else {
      var j := SomeBit(w / 2);
      i := j + 1;
    }
  }

  /// A number without bits is zero.
  lemma {:induction false} NoBits(w: nat)
    ensures w == 0 ==> forall i: nat {:induction false} :: !Bit(w, i)
    ensures w != 0 ==> exists i: nat :: Bit(w, i)
  {
    if w == 0 {
      forall i: nat ensures !Bit(w, i) { BitOfZero(i); }
    } else {
      var i := SomeBit(w);
      assert Bit(w, i);
    }
  }

  lemma {:induction false} AndBound(a: nat, b: nat)
    ensures And(a, b) <= b && AndNot(a, b) <= a
  {
    if a != 0 { AndBound(a / 2, b / 2); }
  }

  lemma {:induction false} OrBound(a: nat, b: nat, n: nat)
    requires a < Pow2(n) && b < Pow2(n)
    ensures Or(a, b) < Pow2(n)
  {
    if n > 0 { OrBound(a / 2, b / 2, n - 1); }
  }

  lemma {:induction false} MaskBound(n: nat, b: nat)
    ensures Mask(n, b) < Pow2(n + b)
    decreases b
  {
    if b > 0 { MaskBound(n, b - 1); }
  }

  // ----- the tests on masks -------------------------------------------------

  ghost predicate Covers(w: nat, mask: nat) {
    forall i: nat :: Bit(mask, i) ==> Bit(w, i)
  }

  ghost predicate Misses(w: nat, mask: nat) {
    forall i: nat :: Bit(mask, i) ==> !Bit(w, i)
  }

  /// `w & mask == mask`: every bit of the mask is set.
  lemma {:induction false} HasAll(w: nat, mask: nat)
    ensures And(w, mask) == mask <==> Covers(w, mask)
    decreases mask
  {
    if And(w, mask) == mask {
      forall i: nat | Bit(mask, i) ensures Bit(w, i) { BitAnd(w, mask, i); }
    } else {
      AndBound(w, mask);
      MissingBit(w, mask);
    }
  }

  lemma {:induction false} MissingBit(w: nat, mask: nat)
    requires And(w, mask) != mask
    ensures exists i: nat :: Bit(mask, i) && !Bit(w, i)
    decreases mask
  {
    if w == 0 {
      NoBits(mask);
      var i: nat :| Bit(mask, i);
      BitOfZero(i);
    } else if mask % 2 == 1 && w % 2 == 0 {
      assert Bit(mask, 0) && !Bit(w, 0);
    } else {
      MissingBit(w / 2, mask / 2);
      var i: nat :| Bit(mask / 2, i) && !Bit(w / 2, i);
      assert Bit(mask, i + 1) && !Bit(w, i + 1);
    }
  }

  /// `w & mask == 0`: every bit of the mask is clear.
  lemma HasNone(w: nat, mask: nat)
    ensures And(w, mask) == 0 <==> Misses(w, mask)
  {
    if And(w, mask) == 0 {
      forall i: nat | Bit(mask, i) ensures !Bit(w, i) {
        BitAnd(w, mask, i);
        BitOfZero(i);
      }
    } else {
      var i := SomeBit(And(w, mask));
      BitAnd(w, mask, i);
    }
  }

  lemma {:induction false} OrSame(w: nat, mask: nat)
    ensures Or(w, mask) == w <==> And(w, mask) == mask
  {
    if w != 0 || mask != 0 { OrSame(w / 2, mask / 2); }
  }

  ghost predicate RangeSet(w: nat, b: nat, n: nat) {
    forall i: nat :: b <= i < b + n ==> Bit(w, i)
  }

  ghost predicate RangeClear(w: nat, b: nat, n: nat) {
    forall i: nat :: b <= i < b + n ==> !Bit(w, i)
  }

  lemma TestRange(w: nat, n: nat, b: nat)
    ensures And(w, Mask(n, b)) == Mask(n, b) <==> RangeSet(w, b, n)
    ensures And(w, Mask(n, b)) == 0 <==> RangeClear(w, b, n)
  {
    var mask := Mask(n, b);
    HasAll(w, mask);
    HasNone(w, mask);
    forall i: nat ensures Bit(mask, i) == (b <= i < b + n) { BitMask(n, b, i); }
    assert Covers(w, mask) ==> RangeSet(w, b, n);
    assert Misses(w, mask) ==> RangeClear(w, b, n);
  }

  /// A run of `n` set bits makes the population count at least `n`.
  lemma {:induction false} RunHasOnes(w: nat, b: nat, n: nat)
    requires RangeSet(w, b, n)
    ensures Ones(w) >= n
    decreases b + n
  {
    if n > 0 {
      assert Bit(w, b);
      BitOfZero(b);
      forall i: nat | (if b == 0 then 0 else b - 1) <= i < b + n - 1 ensures Bit(w / 2, i) {
        assert Bit(w, i + 1);
      }
      if b == 0 {
        assert Bit(w, 0);
        RunHasOnes(w / 2, 0, n - 1);
      } else {
        RunHasOnes(w / 2, b - 1, n);
      }
    }
  }

  // ----- whole words --------------------------------------------------------

  lemma Pow2Word(n: nat)
    requires n <= 64
    ensures Pow2(n) <= LIMIT
  {
    Pow2Of64();
    Pow2Monotone(n, 64);
  }

  function MaskWord(n: nat, b: nat): (w: Word)
    requires n + b <= FIELD_BITS
    ensures w == Mask(n, b)
  {
    MaskBound(n, b);
    Pow2Word(n + b);
    Mask(n, b)
  }

  function OrWord(a: Word, b: Word): (w: Word)
    ensures w == Or(a, b)
  {
    Pow2Of64();
    OrBound(a, b, 64);
    Or(a, b)
  }

  function AndNotWord(a: Word, b: Word): (w: Word)
    ensures w == AndNot(a, b)
  {
    AndBound(a, b);
    AndNot(a, b)
  }

  /// A word without bits 0..64 is zero.
  lemma WordZero(w: Word)
    ensures w == 0 <==> RangeClear(w, 0, FIELD_BITS)
  {
    NoBits(w);
    forall i: nat | i >= FIELD_BITS ensures !Bit(w, i) { HighBits(w, 64, i); }
  }

  lemma {:induction false} HighBits(w: nat, n: nat, i: nat)
    requires w < Pow2(n) || (n == 64 && w < LIMIT)
    requires i >= n
    ensures !Bit(w, i)
    decreases n
  {
    if n == 64 { Pow2Of64(); }
    if n == 0 { BitOfZero(i); } else { HighBits(w / 2, n - 1, i - 1); }
  }
}
