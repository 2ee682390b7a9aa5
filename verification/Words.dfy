/// 64-bit machine words as numbers below 2^64, with wrapping addition,
/// exclusive or, and rotation.

module Words {

  const LIMIT: nat := 0x1_0000_0000_0000_0000
  const HALF: nat := 0x8000_0000_0000_0000

  type Word = n: nat | n < LIMIT

  /// The sum and the difference wrap around.
  function Add(a: Word, b: Word): Word { if a + b < LIMIT then a + b else a + b - LIMIT }

  function Sub(a: Word, b: Word): Word { if a >= b then a - b else a + LIMIT - b }

  lemma SubUndoesAdd(a: Word, b: Word)
    ensures Sub(Add(a, b), b) == a
    ensures Add(Sub(a, b), b) == a
  {
  }

  // ----- exclusive or -------------------------------------------------------

  function XorBits(a: nat, b: nat): nat {
    if a == 0 && b == 0 then 0
    else (if a % 2 == b % 2 then 0 else 1) + 2 * XorBits(a / 2, b / 2)
  }

  function Pow2(n: nat): (p: nat)
    ensures p >= 1
  {
    if n == 0 then 1 else 2 * Pow2(n - 1)
  }

  lemma {:induction false} Pow2Monotone(m: nat, n: nat)
    requires m <= n
    ensures Pow2(m) <= Pow2(n)
  {
    if m < n { Pow2Monotone(m, n - 1); }
  }

  lemma {:induction false} XorBound(a: nat, b: nat, n: nat)
    requires a < Pow2(n) && b < Pow2(n)
    ensures XorBits(a, b) < Pow2(n)
  {
    if n > 0 {
      XorBound(a / 2, b / 2, n - 1);
    }
  }

  lemma Pow2Plus8(n: nat)
    ensures Pow2(n + 8) == 256 * Pow2(n)
  {
    assert Pow2(n + 4) == 16 * Pow2(n) by { assert Pow2(n + 2) == 4 * Pow2(n); }
    assert Pow2(n + 6) == 4 * Pow2(n + 4);
  }

  lemma Pow2Of64()
    ensures Pow2(64) == LIMIT
  {
    Pow2Plus8(0);
    Pow2Plus8(8);
    Pow2Plus8(16);
    Pow2Plus8(24);
    Pow2Plus8(32);
    Pow2Plus8(40);
    Pow2Plus8(48);
    Pow2Plus8(56);
  }

  function Xor(a: Word, b: Word): Word {
    Pow2Of64();
    XorBound(a, b, 64);
    XorBits(a, b)
  }

  lemma {:induction false} XorBitsUndone(a: nat, b: nat)
    ensures XorBits(XorBits(a, b), b) == a
  {
    if a != 0 || b != 0 {
      XorBitsUndone(a / 2, b / 2);
    }
  }

  lemma {:induction false} XorBitsZero(a: nat, b: nat)
    ensures XorBits(a, b) == 0 <==> a == b
  {
    if a != 0 || b != 0 {
      XorBitsZero(a / 2, b / 2);
    }
  }

  lemma XorUndone(a: Word, b: Word)
    ensures Xor(Xor(a, b), b) == a
  {
    XorBitsUndone(a, b);
  }

  // ----- rotation -----------------------------------------------------------

  function RotlOne(x: Word): Word { 2 * x % LIMIT + x / HALF }

  function RotrOne(x: Word): Word { x / 2 + x % 2 * HALF }

  lemma RotateOne(x: Word)
    ensures RotrOne(RotlOne(x)) == x
    ensures RotlOne(RotrOne(x)) == x
  {
    var h := x / HALF;
    assert 2 * x == LIMIT * h + 2 * (x - HALF * h);
    assert RotlOne(x) == 2 * (x - HALF * h) + h;
    var r := RotrOne(x);
    assert r / HALF == x % 2;
  }

  function RotlBy(x: Word, n: nat): Word
    decreases n
  {
    if n == 0 then x else RotlOne(RotlBy(x, n - 1))
  }

  function RotrBy(x: Word, n: nat): Word
    decreases n
  {
    if n == 0 then x else RotrBy(RotrOne(x), n - 1)
  }

  /// Rotations use the low six bits of their amount only.
  function Rotl(x: Word, r: Word): Word { RotlBy(x, r % 64) }

  function Rotr(x: Word, r: Word): Word { RotrBy(x, r % 64) }

  lemma {:induction false} RotrUndoesRotl(x: Word, n: nat)
    ensures RotrBy(RotlBy(x, n), n) == x
    decreases n
  {
    if n > 0 {
      RotateOne(RotlBy(x, n - 1));
      RotrUndoesRotl(x, n - 1);
    }
  }

  lemma {:induction false} RotlUndoesRotr(x: Word, n: nat)
    ensures RotlBy(RotrBy(x, n), n) == x
    decreases n
  {
    if n > 0 {
      RotlUndoesRotr(RotrOne(x), n - 1);
      RotateOne(x);
    }
  }

  lemma Scale(m: nat, n: nat, d: nat)
    requires m <= n
    ensures m * d <= n * d
  {
  }
}
