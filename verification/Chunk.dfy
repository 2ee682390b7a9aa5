/// 512-bit chunks of a bitmap: eight consecutive words of a word array. Bit `b`
/// of chunk `c` is bit `512 * c + b` of the array.

module Chunk {
  import opened Words
  import opened Bits
  import opened Wrappers

  const CHUNK_BITS: nat := 512
  const CHUNK_FIELDS: nat := 8


  // ----- bit arrays ---------------------------------------------------------

  ghost predicate BitAt(a: seq<Word>, i: nat)
    requires i < 64 * |a|
  {
    Bit(a[i / 64], i % 64)
  }

  ghost predicate AllSet(a: seq<Word>, lo: nat, n: nat) {
    lo + n <= 64 * |a| && forall i: nat :: lo <= i < lo + n ==> BitAt(a, i)
  }

  /// A run of `n` set bits starts at offset `s` from `lo`.
  ghost predicate RunAt(a: seq<Word>, lo: nat, s: nat, n: nat) { AllSet(a, lo + s, n) }

  ghost predicate AllClear(a: seq<Word>, lo: nat, n: nat) {
    lo + n <= 64 * |a| && forall i: nat :: lo <= i < lo + n ==> !BitAt(a, i)
  }

  /// `a'` is `a` with bits lo..lo+n set, and no other difference.
  ghost predicate WithSet(a: seq<Word>, a': seq<Word>, lo: nat, n: nat) {
    |a'| == |a| &&
    forall i: nat :: i < 64 * |a| ==> (BitAt(a', i) <==> BitAt(a, i) || lo <= i < lo + n)
  }

  /// `a'` is `a` with bits lo..lo+n clear, and no other difference.
  ghost predicate WithClear(a: seq<Word>, a': seq<Word>, lo: nat, n: nat) {
    |a'| == |a| &&
    forall i: nat :: i < 64 * |a| ==> (BitAt(a', i) <==> BitAt(a, i) && !(lo <= i < lo + n))
  }

  lemma {:induction false} SameBitsSameWord(x: nat, y: nat, n: nat)
    requires x < Pow2(n) && y < Pow2(n)
    requires forall i: nat :: i < n ==> (Bit(x, i) <==> Bit(y, i))
    ensures x == y
  {
    if n > 0 {
      assert Bit(x, 0) <==> Bit(y, 0);
      forall i: nat | i < n - 1 ensures Bit(x / 2, i) <==> Bit(y / 2, i) {
        assert Bit(x, i + 1) <==> Bit(y, i + 1);
      }
      SameBitsSameWord(x / 2, y / 2, n - 1);
    }
  }

  lemma SameBits(a: seq<Word>, a': seq<Word>)
    requires |a'| == |a|
    requires forall i: nat :: i < 64 * |a| ==> (BitAt(a', i) <==> BitAt(a, i))
    ensures a' == a
  {
    forall f | 0 <= f < |a| ensures a'[f] == a[f] {
      Pow2Of64();
      forall i: nat | i < 64 ensures Bit(a'[f], i) <==> Bit(a[f], i) {
        assert BitAt(a', 64 * f + i) <==> BitAt(a, 64 * f + i);
      }
      SameBitsSameWord(a'[f], a[f], 64);
    }
  }

  lemma OrAt(a: seq<Word>, f: nat, n: nat, b: nat)
    requires f < |a| && n + b <= 64
    ensures WithSet(a, a[f := OrWord(a[f], MaskWord(n, b))], 64 * f + b, n)
  {
    var a' := a[f := OrWord(a[f], MaskWord(n, b))];
    forall i: nat | i < 64 * |a|
      ensures BitAt(a', i) <==> BitAt(a, i) || 64 * f + b <= i < 64 * f + b + n
    {
      BitOr(a[f], Mask(n, b), i % 64);
      BitMask(n, b, i % 64);
    }
  }

  lemma AndNotAt(a: seq<Word>, f: nat, n: nat, b: nat)
    requires f < |a| && n + b <= 64
    ensures WithClear(a, a[f := AndNotWord(a[f], MaskWord(n, b))], 64 * f + b, n)
  {
    var a' := a[f := AndNotWord(a[f], MaskWord(n, b))];
    forall i: nat | i < 64 * |a|
      ensures BitAt(a', i) <==> BitAt(a, i) && !(64 * f + b <= i < 64 * f + b + n)
    {
      BitAndNot(a[f], Mask(n, b), i % 64);
      BitMask(n, b, i % 64);
    }
  }

  lemma FieldRange(a: seq<Word>, f: nat, n: nat, b: nat)
    requires f < |a| && n + b <= 64
    ensures AllSet(a, 64 * f + b, n) <==> RangeSet(a[f], b, n)
    ensures AllClear(a, 64 * f + b, n) <==> RangeClear(a[f], b, n)
  {
    forall i: nat | b <= i < b + n ensures Bit(a[f], i) <==> BitAt(a, 64 * f + i) {
      FieldBit(a, f, i);
    }
    forall j: nat | 64 * f + b <= j < 64 * f + b + n ensures BitAt(a, j) <==> Bit(a[f], j - 64 * f) {
      FieldBit(a, f, j - 64 * f);
    }
  }

  lemma FieldBit(a: seq<Word>, f: nat, i: nat)
    requires f < |a| && i < 64
    ensures BitAt(a, 64 * f + i) <==> Bit(a[f], i)
  {
  }

  lemma TestAt(a: seq<Word>, f: nat, n: nat, b: nat)
    requires f < |a| && n + b <= 64
    ensures And(a[f], MaskWord(n, b)) == MaskWord(n, b) <==> AllSet(a, 64 * f + b, n)
    ensures And(a[f], MaskWord(n, b)) == 0 <==> AllClear(a, 64 * f + b, n)
  {
    TestRange(a[f], n, b);
    FieldRange(a, f, n, b);
  }

  lemma SetJoins(a: seq<Word>, a1: seq<Word>, a2: seq<Word>, lo: nat, m: nat, n: nat)
    requires WithSet(a, a1, lo, m) && WithSet(a1, a2, lo + m, n)
    ensures WithSet(a, a2, lo, m + n)
  {
  }

  lemma ClearJoins(a: seq<Word>, a1: seq<Word>, a2: seq<Word>, lo: nat, m: nat, n: nat)
    requires WithClear(a, a1, lo, m) && WithClear(a1, a2, lo + m, n)
    ensures WithClear(a, a2, lo, m + n)
  {
  }

  lemma SetUndoesClear(a: seq<Word>, a1: seq<Word>, a2: seq<Word>, lo: nat, m: nat, n: nat)
    requires AllSet(a, lo, m + n) && WithClear(a, a1, lo, m + n) && WithSet(a1, a2, lo, m)
    ensures WithClear(a, a2, lo + m, n)
  {
  }

  // ----- one field ----------------------------------------------------------

  /// `bf_set_mask`, the mask given as a run of bits.
  method SetMask(a: array<Word>, f: nat, n: nat, b: nat) returns (changed: bool)
    requires f < a.Length && n + b <= 64
    modifies a
    ensures WithSet(old(a[..]), a[..], 64 * f + b, n)
    ensures changed <==> !AllSet(old(a[..]), 64 * f + b, n)
  {
    OrAt(a[..], f, n, b);
    TestAt(a[..], f, n, b);
    OrSame(a[f], MaskWord(n, b));
    var next := OrWord(a[f], MaskWord(n, b));
    if next == a[f] {
      assert a[..][f := next] == a[..];
      return false;
    }
    ghost var was := a[..];
    a[f] := next;
    assert a[..] == was[f := next];
    return true;
  }

  /// `bf_try_clear_mask`.
  method TryClearMask(a: array<Word>, f: nat, n: nat, b: nat) returns (ok: bool)
    requires f < a.Length && n + b <= 64
    modifies a
    ensures ok <==> AllSet(old(a[..]), 64 * f + b, n)
    ensures if ok then WithClear(old(a[..]), a[..], 64 * f + b, n) else a[..] == old(a[..])
  {
    AndNotAt(a[..], f, n, b);
    TestAt(a[..], f, n, b);
    if And(a[f], MaskWord(n, b)) != MaskWord(n, b) {
      return false;
    }
    ghost var was := a[..];
    a[f] := AndNotWord(a[f], MaskWord(n, b));
    assert a[..] == was[f := AndNotWord(was[f], MaskWord(n, b))];
    return true;
  }

  /// `bf_find_and_clear_run`: the first run of `n` set bits within field `f`.
  method FindAndClearRun(a: array<Word>, f: nat, n: nat) returns (r: Option<nat>)
    requires f < a.Length
    modifies a
    ensures r.Some? ==>
      && 1 <= n && r.value + n <= 64
      && AllSet(old(a[..]), 64 * f + r.value, n) && WithClear(old(a[..]), a[..], 64 * f + r.value, n)
      && forall s: nat :: s < r.value ==> !RunAt(old(a[..]), 64 * f, s, n)
    ensures r.None? ==>
      && a[..] == old(a[..])
      && (1 <= n ==> forall s: nat :: s + n <= 64 ==> !RunAt(a[..], 64 * f, s, n))
  {
    if n == 0 || n > FIELD_BITS {
      return None;
    }
    // A field without `n` set bits cannot hold the run.
    if Ones(a[f]) < n {
      forall s: nat | s + n <= 64 ensures !RunAt(a[..], 64 * f, s, n) {
        if RunAt(a[..], 64 * f, s, n) {
          FieldRange(a[..], f, n, s);
          RunHasOnes(a[f], s, n);
        }
      }
      return None;
    }
    var shift := 0;
    while shift + n <= FIELD_BITS
      invariant a[..] == old(a[..])
      invariant forall s: nat :: s < shift && s + n <= 64 ==> !RunAt(a[..], 64 * f, s, n)
    {
      TestAt(a[..], f, n, shift);
      if And(a[f], MaskWord(n, shift)) == MaskWord(n, shift) {
        AndNotAt(a[..], f, n, shift);
        ghost var was := a[..];
        a[f] := AndNotWord(a[f], MaskWord(n, shift));
        assert a[..] == was[f := AndNotWord(was[f], MaskWord(n, shift))];
        return Some(shift);
      }
      shift := shift + 1;
    }
    return None;
  }

  // ----- one chunk ----------------------------------------------------------

  function Min(a: nat, b: nat): nat { if a < b then a else b }

  method IsSetN(a: array<Word>, c: nat, cbit: nat, n: nat) returns (all: bool)
    requires 8 * c + 8 <= a.Length && cbit + n <= CHUNK_BITS
    ensures all <==> AllSet(a[..], 512 * c + cbit, n)
  {
    var remaining: nat, bit: nat := n, cbit;
    while remaining > 0
      invariant bit + remaining == cbit + n && cbit <= bit
      invariant AllSet(a[..], 512 * c + cbit, bit - cbit)
    {
      var f, b := bit / 64, bit % 64;
      var here := Min(remaining, 64 - b);
      TestAt(a[..], 8 * c + f, here, b);
      if And(a[8 * c + f], MaskWord(here, b)) != MaskWord(here, b) {
        return false;
      }
      bit, remaining := bit + here, remaining - here;
    }
    return true;
  }

  method IsClearN(a: array<Word>, c: nat, cbit: nat, n: nat) returns (all: bool)
    requires 8 * c + 8 <= a.Length && cbit + n <= CHUNK_BITS
    ensures all <==> AllClear(a[..], 512 * c + cbit, n)
  {
    var remaining: nat, bit: nat := n, cbit;
    while remaining > 0
      invariant bit + remaining == cbit + n && cbit <= bit
      invariant AllClear(a[..], 512 * c + cbit, bit - cbit)
    {
      var f, b := bit / 64, bit % 64;
      var here := Min(remaining, 64 - b);
      TestAt(a[..], 8 * c + f, here, b);
      if And(a[8 * c + f], MaskWord(here, b)) != 0 {
        return false;
      }
      bit, remaining := bit + here, remaining - here;
    }
    return true;
  }

  method SetN(a: array<Word>, c: nat, cbit: nat, n: nat)
    requires 8 * c + 8 <= a.Length && cbit + n <= CHUNK_BITS
    modifies a
    ensures WithSet(old(a[..]), a[..], 512 * c + cbit, n)
  {
    var remaining: nat, bit: nat := n, cbit;
    while remaining > 0
      invariant bit + remaining == cbit + n && cbit <= bit
      invariant WithSet(old(a[..]), a[..], 512 * c + cbit, bit - cbit)
    {
      var f, b := bit / 64, bit % 64;
      var here := Min(remaining, 64 - b);
      ghost var was := a[..];
      var _ := SetMask(a, 8 * c + f, here, b);
      SetJoins(old(a[..]), was, a[..], 512 * c + cbit, bit - cbit, here);
      bit, remaining := bit + here, remaining - here;
    }
    assert bit - cbit == n;
  }

  /// The start of the k-th piece of a range beginning at `lo`, cut at field
  /// boundaries.
  function PieceStart(lo: nat, k: nat): nat {
    if k == 0 then lo else (lo / 64 + k) * 64
  }

  /// Undo the first `count` pieces that were cleared, in the order of clearing.
  method RollBack(a: array<Word>, lo: nat, count: nat, ghost was: seq<Word>)
    requires |was| == a.Length && PieceStart(lo, count) <= 64 * a.Length
    requires AllSet(was, lo, PieceStart(lo, count) - lo)
    requires WithClear(was, a[..], lo, PieceStart(lo, count) - lo)
    modifies a
    ensures a[..] == was
  {
    var j := 0;
    while j < count
      invariant j <= count
      invariant WithClear(was, a[..], PieceStart(lo, j), PieceStart(lo, count) - PieceStart(lo, j))
    {
      var start := PieceStart(lo, j);
      var here := PieceStart(lo, j + 1) - start;
      ghost var before := a[..];
      var _ := SetMask(a, start / 64, here, start % 64);
      SetUndoesClear(was, before, a[..], start, here, PieceStart(lo, count) - PieceStart(lo, j + 1));
      j := j + 1;
    }
    SameBits(was, a[..]);
  }

  /// Clearing one more piece of a range.
  lemma ClearProgress(orig: seq<Word>, was: seq<Word>, now: seq<Word>, lo: nat, m: nat, here: nat)
    requires AllSet(orig, lo, m) && WithClear(orig, was, lo, m)
    requires AllSet(was, lo + m, here) && WithClear(was, now, lo + m, here)
    ensures AllSet(orig, lo, m + here) && WithClear(orig, now, lo, m + here)
  {
    ClearJoins(orig, was, now, lo, m, here);
    forall i: nat | lo + m <= i < lo + m + here ensures BitAt(orig, i) { assert BitAt(was, i); }
  }

  /// A piece that is not all set shows the range was not.
  lemma ClearFails(orig: seq<Word>, was: seq<Word>, lo: nat, m: nat, here: nat, n: nat)
    requires WithClear(orig, was, lo, m) && m + here <= n && lo + n <= 64 * |orig|
    requires !AllSet(was, lo + m, here)
    ensures !AllSet(orig, lo, n)
  {
    var i: nat :| lo + m <= i < lo + m + here && !BitAt(was, i);
    assert !BitAt(orig, i);
  }

  /// The multi-field path: clear field by field, rolling back on failure.
  method ClearFields(a: array<Word>, lo: nat, n: nat) returns (ok: bool)
    requires lo + n <= 64 * a.Length
    modifies a
    ensures ok <==> AllSet(old(a[..]), lo, n)
    ensures if ok then WithClear(old(a[..]), a[..], lo, n) else a[..] == old(a[..])
  {
    var count, remaining: nat, bit: nat := 0, n, lo;
    while remaining > 0
      invariant bit + remaining == lo + n && lo <= bit
      invariant remaining > 0 ==> bit == PieceStart(lo, count)
      invariant AllSet(old(a[..]), lo, bit - lo)
      invariant WithClear(old(a[..]), a[..], lo, bit - lo)
    {
      var f, b := bit / 64, bit % 64;
      var here := Min(remaining, 64 - b);
      ghost var was := a[..];
      var cleared := TryClearMask(a, f, here, b);
      if !cleared {
        ClearFails(old(a[..]), was, lo, bit - lo, here, n);
        RollBack(a, lo, count, old(a[..]));
        return false;
      }
      ClearProgress(old(a[..]), was, a[..], lo, bit - lo, here);
      count, bit, remaining := count + 1, bit + here, remaining - here;
    }
    assert bit - lo == n;
    return true;
  }

  /// All or nothing, with rollback of a partial claim.
  method TryClearN(a: array<Word>, c: nat, cbit: nat, n: nat) returns (ok: bool)
    requires 8 * c + 8 <= a.Length && cbit < CHUNK_BITS && cbit + n <= CHUNK_BITS
    modifies a
    ensures ok <==> AllSet(old(a[..]), 512 * c + cbit, n)
    ensures if ok then WithClear(old(a[..]), a[..], 512 * c + cbit, n) else a[..] == old(a[..])
  {
    if cbit % 64 + n <= FIELD_BITS {
      assert 64 * (8 * c + cbit / 64) + cbit % 64 == 512 * c + cbit;
      ok := TryClearMask(a, 8 * c + cbit / 64, n, cbit % 64);
    } else {
      ok := ClearFields(a, 512 * c + cbit, n);
    }
  }

  // ----- searching a chunk --------------------------------------------------

  function TotalOnes(ws: seq<Word>): nat {
    if ws == [] then 0 else Ones(ws[0]) + TotalOnes(ws[1..])
  }

  /// A run anywhere, also across fields, is counted in full.
  lemma {:induction false} RunIsCounted(ws: seq<Word>, lo: nat, n: nat)
    requires AllSet(ws, lo, n)
    ensures TotalOnes(ws) >= n
  {
    if n > 0 {
      assert BitAt(ws, lo);
      var here := if lo < 64 then Min(n, 64 - lo) else 0;
      var rest := if lo < 64 then 0 else lo - 64;
      forall i: nat | lo <= i < lo + here ensures Bit(ws[0], i) { assert BitAt(ws, i); }
      RunHasOnes(ws[0], lo, here);
      forall i: nat | rest <= i < rest + (n - here) ensures BitAt(ws[1..], i) {
        assert BitAt(ws, i + 64);
        assert (i + 64) / 64 == i / 64 + 1;
      }
      RunIsCounted(ws[1..], rest, n - here);
    }
  }

  method CountChunk(a: array<Word>, c: nat) returns (free: nat)
    requires 8 * c + 8 <= a.Length
    ensures forall s: nat, n: nat :: s + n <= CHUNK_BITS && RunAt(a[..], 512 * c, s, n) ==> n <= free
  {
    free := 0;
    var f := 0;
    while f < CHUNK_FIELDS
      invariant f <= 8 && free + TotalOnes(a[8 * c + f..8 * c + 8]) == TotalOnes(a[8 * c..8 * c + 8])
    {
      assert a[8 * c + f..8 * c + 8][1..] == a[8 * c + f + 1..8 * c + 8];
      free := free + Ones(a[8 * c + f]);
      f := f + 1;
    }
    ghost var ws := a[8 * c..8 * c + 8];
    forall s: nat, n: nat | s + n <= CHUNK_BITS && RunAt(a[..], 512 * c, s, n) ensures n <= free {
      forall i: nat | s <= i < s + n ensures BitAt(ws, i) {
        assert BitAt(a[..], 512 * c + i);
        assert (512 * c + i) / 64 == 8 * c + i / 64;
      }
      RunIsCounted(ws, s, n);
    }
  }

  /// Chunk `c` holds a run of `n` set bits.
  ghost predicate HasRun(a: seq<Word>, c: nat, n: nat) {
    exists s: nat :: s + n <= CHUNK_BITS && RunAt(a, 512 * c, s, n)
  }

  ghost predicate NoRunBefore(a: seq<Word>, c: nat, n: nat, start: nat) {
    forall s: nat :: s < start && s + n <= CHUNK_BITS ==> !RunAt(a, 512 * c, s, n)
  }

  /// The general scan, across field boundaries.
  method FindSpanning(a: array<Word>, c: nat, n: nat) returns (r: Option<nat>)
    requires 8 * c + 8 <= a.Length && 1 <= n <= CHUNK_BITS
    modifies a
    ensures r.Some? ==>
      && r.value + n <= CHUNK_BITS && NoRunBefore(old(a[..]), c, n, r.value)
      && AllSet(old(a[..]), 512 * c + r.value, n) && WithClear(old(a[..]), a[..], 512 * c + r.value, n)
    ensures r.None? ==> a[..] == old(a[..]) && !HasRun(a[..], c, n)
  {
    var start := 0;
    while start + n <= CHUNK_BITS
      invariant a[..] == old(a[..])
      invariant NoRunBefore(a[..], c, n, start)
    {
      var there := IsSetN(a, c, start, n);
      if there {
        var ok := TryClearN(a, c, start, n);
        assert ok;
        return Some(start);
      }
      start := start + 1;
    }
    return None;
  }

  /// The run of `n` bits from offset `s` lies within one field.
  predicate InField(s: nat, n: nat) { s % 64 + n <= 64 }

  /// The run that the search takes: the lowest within one field, or the lowest of
  /// all if none lies within one.
  ghost predicate BestRun(a: seq<Word>, c: nat, n: nat, s: nat) {
    && s + n <= CHUNK_BITS && RunAt(a, 512 * c, s, n)
    && (forall x: nat :: InField(x, n) && (x < s || !InField(s, n)) && x + n <= CHUNK_BITS ==> !RunAt(a, 512 * c, x, n))
    && (InField(s, n) || NoRunBefore(a, c, n, s))
  }

  /// Field `f` has no run within itself.
  lemma FieldPassed(a: seq<Word>, c: nat, f: nat, n: nat, limit: nat, lo: nat)
    requires lo == 64 * (8 * c + f)
    requires forall x: nat :: InField(x, n) && x < 64 * f ==> !RunAt(a, 512 * c, x, n)
    requires forall s: nat :: s < limit && s + n <= 64 ==> !RunAt(a, lo, s, n)
    requires limit <= 64
    ensures forall x: nat :: InField(x, n) && x < 64 * f + limit ==> !RunAt(a, 512 * c, x, n)
  {
    forall x: nat | InField(x, n) && 64 * f <= x < 64 * f + limit ensures !RunAt(a, 512 * c, x, n) {
      FieldOffset(x, f);
      assert !RunAt(a, lo, x - 64 * f, n);
    }
  }

  lemma FieldOffset(x: nat, f: nat)
    requires 64 * f <= x < 64 * f + 64
    ensures x % 64 == x - 64 * f
  {
  }

  /// `find_and_clear_n`: a run within one field if there is one, else any run.
  method FindAndClearN(a: array<Word>, c: nat, n: nat) returns (r: Option<nat>)
    requires 8 * c + 8 <= a.Length
    modifies a
    ensures r.Some? ==>
      && 1 <= n && r.value + n <= CHUNK_BITS
      && AllSet(old(a[..]), 512 * c + r.value, n) && WithClear(old(a[..]), a[..], 512 * c + r.value, n)
      && BestRun(old(a[..]), c, n, r.value)
    ensures r.None? ==> a[..] == old(a[..])
    ensures 1 <= n <= CHUNK_BITS ==> (r.Some? <==> HasRun(old(a[..]), c, n))
  {
    if n == 0 || n > CHUNK_BITS {
      return None;
    }
    ghost var was := a[..];
    if n <= FIELD_BITS {
      r := FindInField(a, c, n);
      if r.Some? { return; }
    }
    var free := CountChunk(a, c);
    if free < n {
      return None;
    }
    r := FindSpanning(a, c, n);
    if r.Some? { assert RunAt(was, 512 * c, r.value, n); }
  }

  /// Field by field, lowest first.
  method FindInField(a: array<Word>, c: nat, n: nat) returns (r: Option<nat>)
    requires 8 * c + 8 <= a.Length && 1 <= n <= FIELD_BITS
    modifies a
    ensures r.Some? ==>
      && r.value + n <= CHUNK_BITS && BestRun(old(a[..]), c, n, r.value)
      && AllSet(old(a[..]), 512 * c + r.value, n) && WithClear(old(a[..]), a[..], 512 * c + r.value, n)
    ensures r.None? ==> a[..] == old(a[..])
    ensures r.None? ==> forall x: nat :: InField(x, n) && x < CHUNK_BITS ==> !RunAt(a[..], 512 * c, x, n)
  {
    ghost var was := a[..];
    var f := 0;
    while f < CHUNK_FIELDS
      invariant f <= 8 && a[..] == was
      invariant forall x: nat :: InField(x, n) && x < 64 * f ==> !RunAt(was, 512 * c, x, n)
    {
      var b := FindAndClearRun(a, 8 * c + f, n);
      if b.Some? {
        FieldPassed(was, c, f, n, b.value, 64 * (8 * c + f));
        FieldOffset(64 * f + b.value, f);
        assert RunAt(was, 512 * c, 64 * f + b.value, n);
        return Some(64 * f + b.value);
      }
      FieldPassed(was, c, f, n, 64, 64 * (8 * c + f));
      f := f + 1;
    }
    return None;
  }

  method IsAllClear(a: array<Word>, c: nat) returns (empty: bool)
    requires 8 * c + 8 <= a.Length
    ensures empty <==> AllClear(a[..], 512 * c, 512)
  {
    var f := 0;
    while f < CHUNK_FIELDS
      invariant f <= 8 && AllClear(a[..], 512 * c, 64 * f)
    {
      WordZero(a[8 * c + f]);
      FieldRange(a[..], 8 * c + f, 64, 0);
      if a[8 * c + f] != 0 {
        assert !AllClear(a[..], 512 * c + 64 * f, 64);
        return false;
      }
      f := f + 1;
    }
    return true;
  }
}
