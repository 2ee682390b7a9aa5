/// Size classes: the shift-and-mask bin formula, the table of block sizes its
/// loop fills, and the size a request is rounded up to.

module SizeClasses {
  import opened SliceRuns
  import opened Words

  const MAX_WSIZE: nat := 65536
  const BIN_HUGE: nat := 73
  const BIN_COUNT: nat := 75
  const MAX_ALIGN: nat := 16

  // ----- the formula --------------------------------------------------------

  function WSize(size: nat): nat { (size + 7) / 8 }

  /// Index of the highest set bit.
  function Log2(v: nat): (b: nat)
    requires v > 0
    ensures Pow2(b) <= v < Pow2(b + 1)
    ensures v >= 8 ==> b >= 3
  {
    if v == 1 then 0 else 1 + Log2(v / 2)
  }

  /// The shift-and-mask class of a word count above 8, without the huge cap.
  function Formula(w: nat): int
    requires w > 8
  {
    var b := Log2(w - 1);
    4 * b + (w - 1) / Pow2(b - 2) % 4 - 3
  }

  function WBin(w: nat): int {
    if w <= 8 then (if w <= 1 then 1 else (w + 1) / 2 * 2)
    else if w > MAX_WSIZE then BIN_HUGE
    else Formula(w)
  }

  function Bin(size: nat): int { WBin(WSize(size)) }

  /// A quarter of the octave that a word count above 8 falls in.
  function Step(w: nat): (d: nat)
    requires w > 8
    ensures d >= 2 && 4 * d < w <= 8 * d
    ensures Pow2(Log2(w - 1)) == 4 * d
  {
    var b := Log2(w - 1);
    Octave(b);
    Pow2(b - 2)
  }

  lemma Octave(b: nat)
    requires b >= 3
    ensures Pow2(b) == 4 * Pow2(b - 2) && Pow2(b + 1) == 8 * Pow2(b - 2) && Pow2(b - 2) >= 2
  {
    assert Pow2(b + 1) == 2 * Pow2(b) && Pow2(b) == 2 * Pow2(b - 1);
    assert Pow2(b - 1) == 2 * Pow2(b - 2) && Pow2(b - 2) == 2 * Pow2(b - 3);
  }

  /// The position of `w` in its octave, without dividing.
  function Quarter(w: nat): nat
    requires w > 8
  {
    var d := Step(w);
    if w <= 5 * d then 4 else if w <= 6 * d then 5 else if w <= 7 * d then 6 else 7
  }

  lemma FormulaIs(w: nat)
    requires w > 8
    ensures Formula(w) == 4 * Log2(w - 1) + Quarter(w) - 7
  {
    var d, q := Step(w), Quarter(w);
    assert q * d < w <= q * d + d by {
      if q == 4 {} else if q == 5 {} else if q == 6 {} else { assert q == 7; }
    }
    DividedMod4(w - 1, d, q);
  }

  lemma DividedMod4(v: nat, d: nat, q: nat)
    requires d > 0 && q * d <= v < q * d + d && 4 <= q < 8
    ensures v / d % 4 == q - 4
  {
    Divided(v, d, q);
  }

  lemma Divided(v: nat, d: nat, q: nat)
    requires d > 0 && q * d <= v < q * d + d
    ensures v / d == q
  {
    var r := v / d;
    assert v == r * d + v % d;
    if r < q { Scale(r + 1, q, d); }
    if r > q { Scale(q + 1, r, d); }
  }

  lemma Log2Monotone(v: nat, v': nat)
    requires 0 < v <= v'
    ensures Log2(v) <= Log2(v')
  {
    if Log2(v) > Log2(v') { Pow2Monotone(Log2(v') + 1, Log2(v)); }
  }

  /// Equal octaves have equal steps, and a higher octave starts where a lower ends.
  lemma StepMonotone(w: nat, w': nat)
    requires 8 < w <= w'
    ensures Log2(w - 1) <= Log2(w' - 1)
    ensures Log2(w - 1) == Log2(w' - 1) ==> Step(w) == Step(w')
    ensures Log2(w - 1) < Log2(w' - 1) ==> Step(w') >= 2 * Step(w)
  {
    Log2Monotone(w - 1, w' - 1);
    if Log2(w - 1) < Log2(w' - 1) { Pow2Monotone(Log2(w - 1) + 1, Log2(w' - 1)); }
  }

  /// The formula never decreases, with no cap on the word count.
  lemma FormulaMonotone(w: nat, w': nat)
    requires 8 < w <= w'
    ensures Formula(w) <= Formula(w')
  {
    FormulaIs(w);
    FormulaIs(w');
    StepMonotone(w, w');
  }

  /// Larger requests are never sent to smaller bins, huge ones included.
  lemma BinMonotone(size: nat, size': nat)
    requires size <= size'
    ensures 1 <= Bin(size) <= Bin(size') <= BIN_HUGE
  {
    WBinMonotone(WSize(size), WSize(size'));
  }

  lemma WBinMonotone(w: nat, w': nat)
    requires w <= w'
    ensures 1 <= WBin(w) <= WBin(w') <= BIN_HUGE
  {
    if 8 < w' { FormulaBounds(w'); }
    if 8 < w {
      FormulaBounds(w);
      FormulaMonotone(w, w');
    }
  }

  lemma FormulaBounds(w: nat)
    requires w > 8
    ensures Formula(w) >= 9
    ensures w <= MAX_WSIZE ==> Formula(w) <= 60
  {
    FormulaIs(w);
    if w <= MAX_WSIZE && Log2(w - 1) >= 16 {
      Pow2Monotone(16, Log2(w - 1));
      Pow2Of16();
    }
  }

  lemma Pow2Of16()
    ensures Pow2(16) == 65536
  {
    Pow2Plus8(0);
    Pow2Plus8(8);
  }

  // ----- the largest word count of a class ----------------------------------

  function ClassTop(w: nat): nat
    requires w > 0
  {
    if w <= 8 then (if w == 1 then 1 else (w + 1) / 2 * 2)
    else (Quarter(w) + 1) * Step(w)
  }

  /// The class top without the product.
  lemma TopCases(w: nat)
    requires w > 8
    ensures var d := Step(w);
      ClassTop(w) == if w <= 5 * d then 5 * d else if w <= 6 * d then 6 * d else if w <= 7 * d then 7 * d else 8 * d
  {
  }

  lemma TopAbove8(w: nat)
    requires w > 8
    ensures w <= ClassTop(w) < w + Step(w)
    ensures Step(ClassTop(w)) == Step(w)
    ensures Formula(ClassTop(w)) == Formula(w)
    ensures forall w': nat :: ClassTop(w) < w' ==> Formula(w') > Formula(w)
  {
    var top := ClassTop(w);
    TopCases(w);
    StepMonotone(w, top);
    FormulaIs(w);
    FormulaIs(top);
    forall w': nat | top < w' ensures Formula(w') > Formula(w) {
      FormulaIs(w');
      StepMonotone(w, w');
    }
  }

  /// `ClassTop(w)` is in the class of `w`, and nothing above it is.
  lemma TopOfClass(w: nat)
    requires 0 < w <= MAX_WSIZE
    ensures w <= ClassTop(w) <= MAX_WSIZE
    ensures WBin(ClassTop(w)) == WBin(w)
    ensures forall w': nat :: ClassTop(w) < w' ==> WBin(w') > WBin(w)
  {
    if w > 8 {
      FormulaBounds(w);
      TopAbove8(w);
      TopInRange(w);
    } else {
      forall w': nat | ClassTop(w) < w' ensures WBin(w') > WBin(w) {
        if w' > 8 { FormulaBounds(w'); }
      }
    }
  }

  lemma TopInRange(w: nat)
    requires 8 < w <= MAX_WSIZE
    ensures ClassTop(w) <= MAX_WSIZE
  {
    var b := Log2(w - 1);
    TopCases(w);
    Octave(b);
    Pow2Of16();
    if b >= 16 { Pow2Monotone(16, b); }
    Pow2Monotone(b + 1, 16);
  }

  lemma TopCovers(w: nat)
    requires 0 < w <= MAX_WSIZE
    ensures w <= ClassTop(w) <= MAX_WSIZE
  {
    TopOfClass(w);
  }

  /// A class wastes fewer than a quarter of the words asked for, except that
  /// 3 words are served from blocks of 4.
  lemma WasteUnderAQuarter(w: nat)
    requires 0 < w <= MAX_WSIZE
    ensures 4 * (ClassTop(w) - w) < w <==> w != 3
  {
    if w > 8 {
      TopAbove8(w);
    }
  }

  // ----- the table ----------------------------------------------------------

  /// Entry `b` is the largest size of class `b`, 0 for the unused classes.
  ghost predicate IsBinSizes(t: seq<nat>) { FilledTo(t, MAX_WSIZE) }

  /// The same with the word counts up to `n` entered.
  ghost predicate FilledTo(t: seq<nat>, n: nat) {
    && |t| == BIN_COUNT
    && (forall w: nat :: 0 < w <= n ==> Entered(t, w))
    && (forall b :: 0 <= b < BIN_COUNT ==> t[b] == 0 || Filled(t[b], b, n))
  }

  ghost predicate Entered(t: seq<nat>, w: nat) { 0 <= WBin(w) < |t| && 8 * w <= t[WBin(w)] }

  ghost predicate Filled(size: nat, b: int, limit: nat) {
    exists w: nat :: 0 < w <= limit && WBin(w) == b && size == 8 * w
  }

  lemma BinOfWords(w: nat)
    requires 0 < w <= MAX_WSIZE
    ensures Bin(w * 8) == WBin(w) && 1 <= WBin(w) < BIN_HUGE
  {
    assert WSize(w * 8) == w;
    if w > 8 { FormulaBounds(w); }
  }

  lemma EnterNext(t: seq<nat>, w: nat, t': seq<nat>)
    requires 0 < w <= MAX_WSIZE && FilledTo(t, w - 1) && 0 <= WBin(w) < BIN_COUNT
    requires t' == if w * 8 > t[WBin(w)] then t[WBin(w) := w * 8] else t
    ensures FilledTo(t', w)
  {
    forall k: nat | 0 < k <= w ensures Entered(t', k) {
      if k < w { assert Entered(t, k); }
    }
    forall b | 0 <= b < BIN_COUNT ensures t'[b] == 0 || Filled(t'[b], b, w) {
      if t'[b] != t[b] {
        assert Filled(t'[b], b, w);
      } else if t[b] != 0 {
        FilledFurther(t[b], b, w);
      }
    }
  }

  lemma FilledFurther(size: nat, b: int, n: nat)
    requires n > 0 && Filled(size, b, n - 1)
    ensures Filled(size, b, n)
  {
  }

  method BinSizes() returns (t: seq<nat>)
    ensures IsBinSizes(t)
  {
    var a := new nat[BIN_COUNT](_ => 0);
    var w := 1;
    while w <= MAX_WSIZE
      invariant 1 <= w <= MAX_WSIZE + 1 && FilledTo(a[..], w - 1)
    {
      ghost var was := a[..];
      var sz := w * 8;
      var b := Bin(sz);
      BinOfWords(w);
      if b < BIN_HUGE && sz > a[b] { a[b] := sz; }
      EnterNext(was, w, a[..]);
      w := w + 1;
    }
    return a[..];
  }

  /// The loop stores exactly the largest word count of each class.
  lemma TableHoldsTops(t: seq<nat>, w: nat)
    requires IsBinSizes(t) && 0 < w <= MAX_WSIZE
    ensures 0 <= WBin(w) < BIN_COUNT && t[WBin(w)] == 8 * ClassTop(w)
  {
    TopOfClass(w);
    LargestOfClass(t, w, ClassTop(w));
  }

  lemma LargestOfClass(t: seq<nat>, w: nat, top: nat)
    requires IsBinSizes(t) && 0 < w <= MAX_WSIZE && 0 < top <= MAX_WSIZE && WBin(top) == WBin(w)
    requires forall w': nat :: top < w' ==> WBin(w') > WBin(w)
    ensures 0 <= WBin(w) < BIN_COUNT && t[WBin(w)] == 8 * top
  {
    assert Entered(t, top);
    LargestEntry(t[WBin(top)], WBin(w), top);
  }

  lemma LargestEntry(size: nat, b: int, top: nat)
    requires 8 * top <= size && 0 < top && Filled(size, b, MAX_WSIZE)
    requires forall w: nat :: top < w ==> WBin(w) > b
    ensures size == 8 * top
  {
    var k: nat :| 0 < k <= MAX_WSIZE && WBin(k) == b && size == 8 * k;
    assert k <= top;
  }

  // ----- good_size ----------------------------------------------------------

  /// Rounds up to a multiple of `align`; the sum wraps around.
  function AlignUp(size: Word, align: Word): Word
    requires align > 0
  {
    FloorTo(Add(size, align - 1), align)
  }

  /// The largest multiple of `d` up to `s`.
  function FloorTo(s: nat, d: nat): (f: nat)
    requires d > 0
    ensures f <= s < f + d
  {
    if s < d then 0 else d + FloorTo(s - d, d)
  }

  lemma AlignUpNoWrap(size: Word, align: Word)
    requires align > 0 && size + align - 1 < LIMIT
    ensures AlignUp(size, align) == FloorTo(size + align - 1, align)
  {
    NoWrap(size, align - 1);
  }

  lemma NoWrap(a: Word, b: Word)
    requires a + b < LIMIT
    ensures Add(a, b) == a + b
  {
  }

  lemma AlignUpIs(size: Word, align: Word)
    requires align > 0
    ensures AlignUp(size, align) % align == 0
    ensures size + align - 1 < LIMIT ==> size <= AlignUp(size, align) < size + align
    ensures size + align - 1 >= LIMIT ==> AlignUp(size, align) < align
  {
    FloorDivides(Add(size, align - 1), align);
  }

  lemma {:induction false} FloorDivides(s: nat, d: nat)
    requires d > 0
    ensures FloorTo(s, d) % d == 0
    decreases s
  {
    if s >= d {
      FloorDivides(s - d, d);
      NextMultiple(FloorTo(s - d, d), d);
    }
  }

  lemma NextMultiple(m: nat, d: nat)
    requires d > 0
    ensures (m + d) % d == m % d
  {
    assert m == m / d * d + m % d;
    Divided(m + d, d, m / d + 1);
    assert m + d == (m + d) / d * d + (m + d) % d;
  }

  lemma {:induction false} FloorMonotone(s: nat, s': nat, d: nat)
    requires d > 0 && s <= s'
    ensures FloorTo(s, d) <= FloorTo(s', d)
    decreases s'
  {
    if s >= d { FloorMonotone(s - d, s' - d, d); }
  }

  lemma AlignUpMonotone(size: Word, size': Word, align: Word)
    requires align > 0 && size <= size' && size' + align - 1 < LIMIT
    ensures AlignUp(size, align) <= AlignUp(size', align)
  {
    AlignUpNoWrap(size, align);
    AlignUpNoWrap(size', align);
    FloorMonotone(size + align - 1, size' + align - 1, align);
  }

  lemma AlignedStays(size: Word, align: Word)
    requires align > 0 && size % align == 0 && size + align - 1 < LIMIT
    ensures AlignUp(size, align) == size
  {
    AlignUpNoWrap(size, align);
    MultipleStays(size, align);
  }

  lemma {:induction false} MultipleStays(s: nat, d: nat)
    requires d > 0 && s % d == 0
    ensures FloorTo(s + d - 1, d) == s
    decreases s
  {
    if s >= d {
      NextMultiple(s - d, d);
      MultipleStays(s - d, d);
    }
  }

  function Clamped(size: nat): nat { if size < 8 then 8 else size }

  function GoodSize(t: seq<nat>, size: Word): nat
    requires IsBinSizes(t)
  {
    var s: Word := Clamped(size);
    if Bin(s) >= BIN_HUGE then AlignUp(s, SLICE_SIZE)
    else
      BinMonotone(s, s);
      t[Bin(s)]
  }

  lemma BinIsHuge(s: nat)
    ensures Bin(s) >= BIN_HUGE <==> s > 8 * MAX_WSIZE
  {
    var w := WSize(s);
    assert s > 8 * MAX_WSIZE <==> w > MAX_WSIZE;
    if 8 < w { FormulaBounds(w); }
  }

  lemma GoodSizeCases(t: seq<nat>, size: Word)
    requires IsBinSizes(t)
    ensures size <= 8 * MAX_WSIZE ==>
              GoodSize(t, size) == 8 * ClassTop(WSize(Clamped(size))) <= 8 * MAX_WSIZE
    ensures size > 8 * MAX_WSIZE ==> GoodSize(t, size) == AlignUp(size, SLICE_SIZE)
  {
    var w := WSize(Clamped(size));
    BinIsHuge(Clamped(size));
    if size <= 8 * MAX_WSIZE {
      TableHoldsTops(t, w);
      TopOfClass(w);
    }
  }

  /// A request fits the size it is rounded up to unless the rounding overflows.
  lemma GoodSizeFits(t: seq<nat>, size: Word)
    requires IsBinSizes(t)
    ensures GoodSize(t, size) >= size <==> size + SLICE_SIZE <= LIMIT
  {
    GoodSizeCases(t, size);
    if size <= 8 * MAX_WSIZE {
      TopOfClass(WSize(Clamped(size)));
    } else {
      AlignUpIs(size, SLICE_SIZE);
    }
  }

  lemma ClassTopMonotone(w: nat, w': nat)
    requires 0 < w <= w' <= MAX_WSIZE
    ensures ClassTop(w) <= ClassTop(w')
  {
    TopOfClass(w);
    TopOfClass(w');
    assert WBin(w) <= WBin(w') by { WBinMonotone(w, w'); }
    var top := ClassTop(w);
    assert ClassTop(w') < top ==> WBin(top) > WBin(w');
  }

  lemma GoodSizeMonotone(t: seq<nat>, size: Word, size': Word)
    requires IsBinSizes(t) && size <= size' && size' + SLICE_SIZE <= LIMIT
    ensures GoodSize(t, size) <= GoodSize(t, size')
  {
    GoodSizeCases(t, size);
    GoodSizeCases(t, size');
    if size' <= 8 * MAX_WSIZE {
      ClassTopMonotone(WSize(Clamped(size)), WSize(Clamped(size')));
    } else {
      AlignUpIs(size', SLICE_SIZE);
      AlignUpMonotone(size, size', SLICE_SIZE);
    }
  }

  lemma TopOfTop(w: nat)
    requires 0 < w <= MAX_WSIZE
    ensures 0 < ClassTop(w) <= MAX_WSIZE
    ensures ClassTop(ClassTop(w)) == ClassTop(w)
  {
    TopOfClass(w);
    var top := ClassTop(w);
    TopOfClass(top);
    var top' := ClassTop(top);
    assert top < top' ==> WBin(top') > WBin(w);
  }

  /// Rounding twice is rounding once, for exactly the sizes that do not overflow.
  lemma GoodSizeIdempotent(t: seq<nat>, size: Word)
    requires IsBinSizes(t)
    ensures GoodSize(t, size) < LIMIT
    ensures GoodSize(t, GoodSize(t, size)) == GoodSize(t, size) <==> size + SLICE_SIZE <= LIMIT
  {
    GoodSizeCases(t, size);
    if size <= 8 * MAX_WSIZE {
      var top := ClassTop(WSize(Clamped(size)));
      TopOfTop(WSize(Clamped(size)));
      GoodSizeCases(t, 8 * top);
      assert WSize(Clamped(8 * top)) == top;
    } else {
      AlignUpIs(size, SLICE_SIZE);
      HugeIdempotent(t, size, AlignUp(size, SLICE_SIZE));
    }
  }

  lemma LimitAligned(g: nat)
    requires g < LIMIT && g % SLICE_SIZE == 0
    ensures g + SLICE_SIZE <= LIMIT
  {
  }

  lemma HugeIdempotent(t: seq<nat>, size: Word, g: Word)
    requires IsBinSizes(t) && size > 8 * MAX_WSIZE && g == AlignUp(size, SLICE_SIZE)
    ensures GoodSize(t, g) == g <==> size + SLICE_SIZE <= LIMIT
  {
    AlignUpIs(size, SLICE_SIZE);
    GoodSizeCases(t, g);
    if size + SLICE_SIZE <= LIMIT {
      assert g + SLICE_SIZE <= LIMIT by { LimitAligned(g); }
      AlignedStays(g, SLICE_SIZE);
    } else {
      assert g == 0;
      TopOfTop(1);
    }
  }

  // ----- huge requests ------------------------------------------------------

  /// Slices carved for a huge request, and the block size recorded for it.
  function HugeBlock(size: Word): Word { AlignUp(size, MAX_ALIGN) }

  function HugeSlices(size: Word): nat { AlignUp(HugeBlock(size), SLICE_SIZE) / SLICE_SIZE }

  /// The slices of a huge page cover its block, and the block the request,
  /// exactly when neither rounding overflows.
  lemma HugeFits(size: Word)
    ensures size <= HugeBlock(size) <= HugeSlices(size) * SLICE_SIZE <==> size + SLICE_SIZE <= LIMIT
    ensures size + SLICE_SIZE <= LIMIT ==>
              HugeBlock(size) < size + MAX_ALIGN && HugeSlices(size) * SLICE_SIZE < HugeBlock(size) + SLICE_SIZE
  {
    AlignUpIs(size, MAX_ALIGN);
    AlignUpIs(HugeBlock(size), SLICE_SIZE);
  }

  /// A request that overflows asks for no slices at all.
  lemma HugeWraps(size: Word)
    ensures HugeSlices(size) == 0 <==> size + SLICE_SIZE > LIMIT || size == 0
  {
    AlignUpIs(size, MAX_ALIGN);
    AlignUpIs(HugeBlock(size), SLICE_SIZE);
    HugeFits(size);
  }
}
