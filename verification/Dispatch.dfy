/// Freeing a pointer: the one-word dispatch on `tid ^ xthread_id`, the recovery
/// of the block start, aligned allocation and the size usable from a pointer.

module Dispatch {
  import opened Words
  import opened Bits
  import opened SizeClasses
  import opened PageProtocol
  import opened PageTheorems
  import opened SliceRuns
  import opened Wrappers

  const HAS_INTERIOR: nat := 2
  const FLAG_MASK: nat := 3
  const ABANDONED: nat := 0
  const ABANDONED_MAPPED: nat := 4
  const FIRST_ID: nat := 2
  const MAX_THREADS: nat := 0x3fff_ffff_ffff_fffe

  // ----- the xthread_id word ------------------------------------------------

  /// `current_tid` of the thread numbered `n`: ids count up from 2, shifted
  /// past the flag bits.
  function ThreadId(n: Tid): (w: Word)
    requires n < MAX_THREADS
    ensures w % 4 == 0 && w > ABANDONED_MAPPED
  {
    4 * (n + FIRST_ID)
  }

  function StampId(s: Stamp): Word
    requires s.Owner? ==> s.tid < MAX_THREADS
  {
    match s
    case Owner(t) => ThreadId(t)
    case Abandoned => ABANDONED
    case AbandonedMapped => ABANDONED_MAPPED
  }

  /// The whole word: stamp and flags.
  function XthreadId(sh: Shared): Word
    requires sh.stamp.Owner? ==> sh.stamp.tid < MAX_THREADS
  {
    StampId(sh.stamp) + FlagsOf(sh)
  }

  lemma LastTwo(q: nat, f: nat)
    requires f < 4
    ensures (4 * q + f) % 4 == f
  {
  }

  lemma LowBits(id: nat, f: nat)
    requires id % 4 == 0 && f < 4
    ensures (id + f) % 4 == f
  {
    LastTwo(id / 4, f);
  }

  lemma Flags(id: nat, f: nat, m: nat)
    requires id % 4 == 0 && f < 4 && m == FLAG_MASK
    ensures Or(id, f) == id + f
    ensures And(id + f, m) == f
    ensures AndNot(id + f, m) == id
  {
    LowBits(id, f);
    OrFour(id, f);
    AndFour(id + f, m);
  }

  lemma {:induction false} OrZero(a: nat)
    ensures Or(a, 0) == a && AndNot(a, 0) == a
  {
    if a != 0 { OrZero(a / 2); }
  }

  lemma OrFour(a: nat, f: nat)
    requires a % 4 == 0 && f < 4
    ensures Or(a, f) == a + f
  {
    OrZero(a / 4);
    assert a / 2 / 2 == a / 4;
    assert Or(a / 2, f / 2) == a / 2 + f / 2;
  }

  lemma AndFour(a: nat, m: nat)
    requires m == FLAG_MASK
    ensures And(a, m) == a % 4 && AndNot(a, m) == a - a % 4
  {
    OrZero(a / 4);
    assert a / 2 / 2 == a / 4;
    assert m / 2 == 1 && And(a / 2, 1) == a / 2 % 2;
    assert AndNot(a / 2, 1) == a / 2 - a / 2 % 2;
  }

  /// Different stamps are different ids, so the word tells them apart.
  lemma StampIdInjective(a: Stamp, b: Stamp)
    requires (a.Owner? ==> a.tid < MAX_THREADS) && (b.Owner? ==> b.tid < MAX_THREADS)
    ensures StampId(a) == StampId(b) ==> a == b
    ensures StampId(a) % 4 == 0
  {
  }

  /// The CAS of set_owner: keep the flag bits, replace the id.
  function SetOwner(raw: Word, id: Word): nat { Or(id, And(raw, FLAG_MASK)) }

  function FlagsOf(sh: Shared): nat { if sh.interior then HAS_INTERIOR else 0 }

  /// Restamping through the word is restamping the page, flag untouched.
  lemma SetOwnerRestamps(sh: Shared, st: Stamp)
    requires sh.stamp.Owner? ==> sh.stamp.tid < MAX_THREADS
    requires st.Owner? ==> st.tid < MAX_THREADS
    ensures SetOwner(XthreadId(sh), StampId(st)) == XthreadId(sh.(stamp := st))
  {
    Flags(StampId(sh.stamp), FlagsOf(sh), FLAG_MASK);
    Flags(StampId(st), FlagsOf(sh), FLAG_MASK);
  }

  /// The fetch_or of set_has_interior sets the flag and keeps the stamp.
  lemma SetInteriorFlags(sh: Shared)
    requires sh.stamp.Owner? ==> sh.stamp.tid < MAX_THREADS
    ensures Or(XthreadId(sh), HAS_INTERIOR) == XthreadId(sh.(interior := true))
  {
    if sh.interior { SetAgain(XthreadId(sh)); } else { Flags(StampId(sh.stamp), HAS_INTERIOR, FLAG_MASK); }
  }

  lemma SetAgain(w: nat)
    requires w % 4 == 2
    ensures Or(w, HAS_INTERIOR) == w
  {
    OrZero(w / 4);
    assert w / 2 / 2 == w / 4;
    assert Or(w / 2, 1) == w / 2;
  }

  // ----- the dispatch word --------------------------------------------------

  lemma XorDouble(c: nat, i: nat, g: nat)
    requires g < 2
    ensures XorBits(2 * c, 2 * i + g) == 2 * XorBits(c, i) + g
  {
    assert 2 * c / 2 == c && (2 * i + g) / 2 == i;
  }

  lemma XorFour(c: nat, i: nat, f: nat)
    requires f < 4
    ensures XorBits(4 * c, 4 * i + f) == 4 * XorBits(c, i) + f
  {
    XorDouble(c, i, f / 2);
    XorDouble(2 * c, 2 * i + f / 2, f % 2);
  }

  /// What the XOR of an id with a stamped word tells: whether the ids are
  /// equal, and, from a thread's side, all the flags.
  lemma XorTells(cur: Word, id: Word, f: nat)
    requires cur % 4 == 0 && id % 4 == 0 && f < 4 && id + f < LIMIT
    ensures AndNot(Xor(cur, id + f), FLAG_MASK) == 0 <==> cur == id
    ensures And(Xor(cur, id + f), FLAG_MASK) == f
    ensures Xor(cur, id + f) == 0 <==> cur == id && f == 0
  {
    BitsTell(cur / 4, id / 4, f, Xor(cur, id + f), FLAG_MASK);
  }

  lemma BitsTell(c: nat, i: nat, f: nat, x: nat, m: nat)
    requires f < 4 && x == XorBits(4 * c, 4 * i + f) && m == FLAG_MASK
    ensures AndNot(x, m) == 0 <==> c == i
    ensures And(x, m) == f
    ensures x == 0 <==> c == i && f == 0
  {
    XorFour(c, i, f);
    XorBitsZero(c, i);
    AndFour(x, m);
    LastTwo(XorBits(c, i), f);
  }

  datatype Arm = OwnerBlock | OwnerRecover | CrossBlock | CrossRecover

  /// The arms of `free` and `free_cold`.
  function FreeArm(xtid: Word): Arm {
    if xtid == 0 then OwnerBlock
    else if AndNot(xtid, FLAG_MASK) == 0 then OwnerRecover
    else if And(xtid, FLAG_MASK) == 0 then CrossBlock
    else CrossRecover
  }

  // ----- recovering the block -----------------------------------------------

  function RecoverBlockStart(p: nat, pageStart: nat, bs: nat): nat
    requires bs > 0 && p >= pageStart
  {
    var off := p - pageStart;
    if off == 0 then p else pageStart + off / bs * bs
  }

  lemma Recovers(pageStart: nat, bs: nat, b: nat, delta: nat)
    requires delta < bs
    ensures RecoverBlockStart(pageStart + b * bs + delta, pageStart, bs) == pageStart + b * bs
    ensures (b * bs + delta) % bs == delta
  {
    var off := b * bs + delta;
    assert off / bs == b by { Divided(off, bs, b); }
    assert off == off / bs * bs + off % bs;
  }

  /// The address handed to free_local or thread_free_push.
  function FreedAddress(xtid: Word, p: nat, pageStart: nat, bs: nat): nat
    requires bs > 0 && p >= pageStart
  {
    match FreeArm(xtid)
    case OwnerBlock => p
    case OwnerRecover => RecoverBlockStart(p, pageStart, bs)
    case CrossBlock => p
    case CrossRecover => RecoverBlockStart(p, pageStart, bs)
  }

  /// In every reachable state, freeing a live pointer, however far inside its
  /// block it points if it was handed out as an interior pointer, takes an owner
  /// arm exactly when the page is in the caller's own queue, and frees exactly
  /// the start of its block.
  lemma FreeFindsOwnerAndBlock(s: State, t: Tid, b: Block, pageStart: nat, bs: nat, delta: nat)
    requires Reachable(s) && t < |s.pc| <= MAX_THREADS && AtRest(s.pc[t]) && b in s.q.live
    requires delta < bs && (delta != 0 ==> b in s.inside)
    ensures s.sh.stamp.Owner? ==> s.sh.stamp.tid < MAX_THREADS
    ensures var xtid := Xor(ThreadId(t), XthreadId(s.sh));
      && (FreeArm(xtid).OwnerBlock? || FreeArm(xtid).OwnerRecover? <==> s.pc[t].Own?)
      && (FreeArm(xtid).OwnerBlock? || FreeArm(xtid).OwnerRecover? <==> Enabled(s, FreeLocal(t, b)))
      && FreedAddress(xtid, pageStart + b * bs + delta, pageStart, bs) == pageStart + b * bs
  {
    StampInRange(s, b);
    LocalFreeIsOwners(s, t, b);
    InteriorStaysFlagged(s, MarkFor(s, t, b));
    var id := StampId(s.sh.stamp);
    var f := if s.sh.interior then HAS_INTERIOR else 0;
    XorTells(ThreadId(t), id, f);
    StampIdInjective(Owner(t), s.sh.stamp);
    Recovers(pageStart, bs, b, delta);
  }

  /// Some step that is enabled while block `b` is live.
  function MarkFor(s: State, t: Tid, b: Block): Step { Write(b, {}) }

  /// Only threads that exist are ever stamped on a page with live blocks.
  lemma StampInRange(s: State, b: Block)
    requires Reachable(s) && |s.pc| <= MAX_THREADS && b in s.q.live
    ensures s.sh.stamp.Owner? ==> s.sh.stamp.tid < MAX_THREADS
  {
    ReachableInv(s);
  }

  // ----- aligned allocation -------------------------------------------------

  ghost predicate IsPow2(a: nat) { exists k: nat :: a == Pow2(k) }

  /// Bytes that alloc_aligned asks for; None when the sum overflows.
  function AlignedRequest(size: Word, align: Word): (r: Option<Word>)
    requires align > 0
    ensures r.None? <==> align > 8 && size + align - 1 >= LIMIT
    ensures r.Some? ==> r.value == size + if align <= 8 then 0 else align - 1
  {
    if align <= 8 then Some(size)
    else if size + align - 1 < LIMIT then Some(size + align - 1)
    else None
  }

  /// The user pointer in the block that starts at `p`.
  function AlignedPointer(p: Word, align: Word): Word
    requires align > 0
  {
    if align <= 8 then p else AlignUp(p, align)
  }

  /// The block size that serves a request.
  function BlockSizeFor(t: seq<nat>, size: Word): nat
    requires IsBinSizes(t)
  {
    var s: Word := Clamped(size);
    if Bin(s) >= BIN_HUGE then HugeBlock(s) else GoodSize(t, s)
  }

  lemma BlockSizeCovers(t: seq<nat>, size: Word)
    requires IsBinSizes(t) && size + SLICE_SIZE <= LIMIT
    ensures BlockSizeFor(t, size) >= size && BlockSizeFor(t, size) >= 8
    ensures BlockSizeFor(t, size) % 8 == 0
  {
    var s: Word := Clamped(size);
    BlockSizeIs(t, size);
    if s > 8 * MAX_WSIZE {
      HugeBlockCovers(s);
    } else {
      TopCovers(WSize(s));
      WordsCover(ClassTop(WSize(s)), s);
    }
  }

  lemma WordsCover(w: nat, s: nat)
    requires WSize(s) <= w && s >= 8
    ensures 8 * w >= s && 8 * w % 8 == 0
  {
  }

  lemma BlockSizeIs(t: seq<nat>, size: Word)
    requires IsBinSizes(t)
    ensures var s: Word := Clamped(size);
      && (s > 8 * MAX_WSIZE ==> BlockSizeFor(t, size) == HugeBlock(s))
      && (s <= 8 * MAX_WSIZE ==> BlockSizeFor(t, size) == 8 * ClassTop(WSize(s)))
  {
    BinIsHuge(Clamped(size));
    GoodSizeCases(t, Clamped(size));
  }

  lemma HugeBlockCovers(s: Word)
    requires s + SLICE_SIZE <= LIMIT
    ensures HugeBlock(s) >= s && HugeBlock(s) % 8 == 0
  {
    AlignUpIs(s, MAX_ALIGN);
  }

  lemma SmallPow2(a: nat, k: nat)
    requires a == Pow2(k) && a <= 8
    ensures a == 1 || a == 2 || a == 4 || a == 8
  {
    if k > 3 {
      Pow2Monotone(4, k);
    }
  }

  lemma LargePow2(a: nat, k: nat)
    requires a == Pow2(k) && a > 8
    ensures a % 8 == 0
  {
    if k <= 3 {
      Pow2Monotone(k, 3);
    } else {
      assert a == 8 * Pow2(k - 3) by { assert Pow2(k - 1) == 2 * Pow2(k - 2); }
    }
  }

  function UsableSize(p: nat, pageStart: nat, bs: nat): nat
    requires bs > 0 && p >= pageStart
  {
    bs - (p - pageStart) % bs
  }

  lemma BlockStartAligned(pageStart: nat, b: nat, bs: nat, start: nat)
    requires pageStart % 16 == 0 && bs % 8 == 0 && start == pageStart + b * bs
    ensures start % 8 == 0
  {
    assert b * bs == b * (bs / 8) * 8;
  }

  lemma AtLeastAlign(align: nat, bs: nat)
    requires align % 8 == 0 && bs % 8 == 0 && bs + 1 >= align > 0
    ensures bs >= align
  {
  }

  lemma IsMultiple(start: nat, align: nat, q: nat)
    requires align > 0 && start == q * align
    ensures start % align == 0
  {
    Divided(start, align, q);
    assert start == start / align * align + start % align;
  }

  lemma SmallAligned(start: nat, align: nat)
    requires start % 8 == 0 && (align == 1 || align == 2 || align == 4 || align == 8)
    ensures start % align == 0
  {
    var j := start / 8;
    var q := if align == 1 then 8 * j else if align == 2 then 4 * j else if align == 4 then 2 * j else j;
    assert start == q * align;
    IsMultiple(start, align, q);
  }

  lemma PointerInBlock(size: Word, align: Word, r: Word, bs: nat, start: Word)
    requires IsPow2(align) && AlignedRequest(size, align) == Some(r)
    requires start % 8 == 0 && bs >= r && bs >= 8 && bs % 8 == 0 && start + bs <= LIMIT
    ensures var q := AlignedPointer(start, align);
      q % align == 0 && start <= q < start + bs && q + size <= start + bs && q < start + align
  {
    var k: nat :| align == Pow2(k);
    if align <= 8 {
      SmallPow2(align, k);
      SmallAligned(start, align);
    } else {
      LargePow2(align, k);
      AtLeastAlign(align, bs);
      AlignUpIs(start, align);
    }
  }

  lemma PointsBack(q: nat, pageStart: nat, b: nat, bs: nat, start: nat)
    requires start == pageStart + b * bs && start <= q < start + bs
    ensures UsableSize(q, pageStart, bs) == start + bs - q
    ensures RecoverBlockStart(q, pageStart, bs) == start
  {
    var delta := q - start;
    Recovers(pageStart, bs, b, delta);
    assert q - pageStart == b * bs + delta;
  }

  /// Pointer `q` is in the block at `start` with room for `size`, is found usable
  /// for exactly the rest of the block, and leads back to the block.
  predicate WellPlaced(q: nat, size: nat, pageStart: nat, bs: nat, start: nat) {
    && bs > 0 && pageStart <= start <= q < start + bs
    && size <= UsableSize(q, pageStart, bs) == start + bs - q
    && RecoverBlockStart(q, pageStart, bs) == start
  }

  lemma RoomBehind(q: nat, size: nat, pageStart: nat, b: nat, bs: nat, start: nat)
    requires start == pageStart + b * bs && start <= q < start + bs && q + size <= start + bs
    ensures WellPlaced(q, size, pageStart, bs, start)
  {
    PointsBack(q, pageStart, b, bs, start);
    Scale(0, b, bs);
  }

  /// For every size and power-of-two alignment whose rounding does not overflow,
  /// the request is for `align - 1` bytes more, none up to the word size, and the
  /// pointer is the first aligned one, well placed in its block.
  lemma AlignedServed(t: seq<nat>, size: Word, align: Word, r: Word, pageStart: nat, b: nat, bs: nat, start: Word)
    requires IsBinSizes(t) && IsPow2(align) && pageStart % 16 == 0
    requires r == (if align <= 8 then size else size + align - 1) && r + SLICE_SIZE <= LIMIT
    requires bs == BlockSizeFor(t, r) && start == pageStart + b * bs && start + bs <= LIMIT
    ensures AlignedRequest(size, align) == Some(r)
    ensures AlignedPointer(start, align) % align == 0 && start <= AlignedPointer(start, align) < start + align
    ensures WellPlaced(AlignedPointer(start, align), size, pageStart, bs, start)
  {
    BlockSizeCovers(t, r);
    BlockStartAligned(pageStart, b, bs, start);
    PointerInBlock(size, align, r, bs, start);
    RoomBehind(AlignedPointer(start, align), size, pageStart, b, bs, start);
  }
}
