/// The four bitmaps of an arena as values: how they agree with the slices in
/// use, what a purge takes, and how a walk over the purge bitmap gets there.

module ArenaState {
  import opened Wrappers
  import opened Words
  import opened Chunk
  import opened SliceRuns

  /// How the four bitmaps follow the slices: `used` are the slices handed out,
  /// `written` the slices that may hold a non-zero byte.
  ghost predicate Follows(f: seq<Word>, c: seq<Word>, p: seq<Word>, d: seq<Word>,
                          count: nat, initiallyZero: bool, used: set<nat>, written: set<nat>)
    requires |f| == |c| == |p| == |d|
  {
    && count <= 64 * |f|
    && (forall i: nat :: i < 64 * |f| ==> (BitAt(f, i) <==> i < count && i !in used))
    && (forall i: nat :: i < 64 * |f| ==> i in used ==> i < count && BitAt(c, i) && BitAt(d, i))
    && (forall i: nat :: i < 64 * |f| ==> BitAt(p, i) ==> i < count)
    && (initiallyZero ==> forall i: nat :: i < count && i in written ==> BitAt(d, i))
  }

  /// Every slice scheduled for purge is committed and dirty.
  ghost predicate Settled(p: seq<Word>, c: seq<Word>, d: seq<Word>)
    requires |p| == |c| == |d|
  {
    forall i: nat :: i < 64 * |p| ==> BitAt(p, i) ==> BitAt(c, i) && BitAt(d, i)
  }

  /// The commit bits are those of the slices that have memory behind them.
  ghost predicate Truthful(c: seq<Word>, backed: set<nat>) {
    forall i: nat :: i < 64 * |c| ==> (BitAt(c, i) <==> i in backed)
  }

  ghost predicate Filled(a: seq<Word>, n: nat, fill: bool) {
    forall i: nat :: i < 64 * |a| ==> (BitAt(a, i) <==> fill && i < n)
  }

  /// The OS is asked to commit the run that an allocation took, and refuses.
  ghost predicate Refused(taken: Option<nat>, n: nat, c: seq<Word>, commitOk: bool) {
    taken.Some? && !commitOk && !AllSet(c, taken.value, n)
  }

  /// The marks of a slice: commit bits, dirty bits, the slices that may hold a
  /// non-zero byte, the slices with memory behind them.
  datatype Marks = Marks(commit: seq<Word>, dirty: seq<Word>, written: set<nat>, backed: set<nat>)

  // ----- what a purge takes -------------------------------------------------

  /// Slices `i` and `j` are in one scheduled run of one 64-bit field.
  ghost predicate SameRun(p: seq<Word>, i: nat, j: nat) {
    && i / 64 == j / 64 && i < 64 * |p| && j < 64 * |p|
    && forall k: nat :: k < 64 * |p| && (i <= k <= j || j <= k <= i) ==> BitAt(p, k)
  }

  /// Slice `i` is scheduled, and its whole run is set in `a`. With the free
  /// bitmap for `a`: a purge returns the slice to the OS.
  ghost predicate RunIn(p: seq<Word>, a: seq<Word>, i: nat)
    requires |a| == |p|
  {
    && i < 64 * |p| && BitAt(p, i)
    && forall j: nat :: j < 64 * |p| && SameRun(p, i, j) ==> BitAt(a, j)
  }

  ghost predicate SomeRunIn(p: seq<Word>, a: seq<Word>, limit: nat)
    requires |a| == |p|
  {
    exists i: nat :: i < limit && RunIn(p, a, i)
  }

  /// Some run that a purge returns to the OS is committed in part.
  ghost predicate Torn(p: seq<Word>, f: seq<Word>, c: seq<Word>)
    requires |p| == |f| == |c|
  {
    exists i: nat :: RunIn(p, f, i) && BitAt(c, i) && !RunIn(p, c, i)
  }

  /// `a'` is `a` without the bits below `limit` of the slices returned to the OS,
  /// except that a run that is only in part in `a` keeps them: the bits of a run
  /// are cleared all or none.
  ghost predicate Purged(p: seq<Word>, f: seq<Word>, a: seq<Word>, a': seq<Word>, decommit: bool, limit: nat)
    requires |f| == |p|
  {
    && |a| == |p| && |a'| == |a|
    && forall i: nat :: i < 64 * |a| ==>
         (BitAt(a', i) <==> BitAt(a, i) && !(decommit && i < limit && RunIn(p, f, i) && RunIn(p, a, i)))
  }

  /// `w'` is `w` without the slices below `limit` returned to the OS.
  ghost predicate Forgot(p: seq<Word>, f: seq<Word>, w: set<nat>, w': set<nat>, decommit: bool, limit: nat)
    requires |f| == |p|
  {
    forall i: nat :: i in w' <==> i in w && !(decommit && i < limit && RunIn(p, f, i))
  }

  /// What a purge of `p` takes from the slices below `limit`.
  ghost predicate PurgeEffect(p: seq<Word>, f: seq<Word>, m: Marks, m': Marks, decommit: bool, limit: nat)
    requires |f| == |p|
  {
    && Purged(p, f, m.commit, m'.commit, decommit, limit)
    && Purged(p, f, m.dirty, m'.dirty, decommit, limit)
    && Forgot(p, f, m.written, m'.written, decommit, limit)
    && Forgot(p, f, m.backed, m'.backed, decommit, limit)
  }

  /// The purge bitmap and the deadline after a run has been given back: `p` has
  /// the run scheduled, and an immediate purge leaves nothing of it.
  ghost predicate Scheduled(p0: seq<Word>, p: seq<Word>, p1: seq<Word>, e0: int, e1: int,
                            idx: nat, n: nat, delay: int, now: nat, pinned: bool) {
    && (if delay < 0 || pinned then p == p0 else WithSet(p0, p, idx, n))
    && (if delay == 0 && !pinned then AllClear(p1, 0, 64 * |p|) else p1 == p)
    && e1 == (if delay <= 0 || pinned || e0 != 0 then e0 else now + delay)
  }

  // ----- the walk over the purge bitmap -------------------------------------

  /// No run goes on across slice `i`.
  ghost predicate RunBorder(p: seq<Word>, i: nat) {
    i == 0 || i % 64 == 0 || i >= 64 * |p| || !BitAt(p, i) || !BitAt(p, i - 1)
  }

  /// A walk over the purge bitmap `p0` has come to `idx`, with `p` as the purge
  /// bitmap and `m` as the marks.
  ghost predicate WalkedTo(p0: seq<Word>, f: seq<Word>, m0: Marks, p: seq<Word>, m: Marks,
                           decommit: bool, idx: nat, purged: bool)
    requires |f| == |p0|
  {
    && |p| == |p0| && AllClear(p, 0, idx) && RunBorder(p0, idx)
    && (forall i: nat :: idx <= i < 64 * |p| ==> (BitAt(p, i) <==> BitAt(p0, i)))
    && PurgeEffect(p0, f, m0, m, decommit, idx)
    && (purged <==> SomeRunIn(p0, f, idx))
  }

  /// Cleared if it was wholly set, and as before otherwise.
  ghost predicate AllOrNone(a: seq<Word>, a': seq<Word>, idx: nat, n: nat) {
    if AllSet(a, idx, n) then WithClear(a, a', idx, n) else a' == a
  }

  /// What a claimed run loses when the purge decommits.
  ghost predicate RunLost(m: Marks, m': Marks, idx: nat, n: nat, lost: bool) {
    if lost then
      && AllOrNone(m.commit, m'.commit, idx, n) && AllOrNone(m.dirty, m'.dirty, idx, n)
      && m'.written == m.written - Slices(idx, n) && m'.backed == m.backed - Slices(idx, n)
    else m' == m
  }

  /// A run within a 64-bit field is within one chunk.
  lemma FieldInChunk(idx: nat, end: nat)
    requires idx < end <= (idx / 64 + 1) * 64
    ensures idx % 512 + (end - idx) <= 512
    ensures end == (idx / 64 + 1) * 64 ==> end % 64 == 0
  {
    var f, q := idx / 64, idx / 512;
    assert 64 * f <= idx < 512 * q + 512;
    assert f <= 8 * q + 7;
  }

  /// A run with a border at both ends is in `a` as a whole or not at all.
  lemma RunDecided(p: seq<Word>, a: seq<Word>, idx: nat, end: nat)
    requires |a| == |p| && idx < end && end <= (idx / 64 + 1) * 64 && AllSet(p, idx, end - idx)
    requires RunBorder(p, idx) && RunBorder(p, end)
    ensures forall i: nat :: idx <= i < end ==> (RunIn(p, a, i) <==> AllSet(a, idx, end - idx))
  {
    forall i: nat | idx <= i < end ensures RunIn(p, a, i) <==> AllSet(a, idx, end - idx) {
      if RunIn(p, a, i) {
        forall j: nat | idx <= j < end ensures BitAt(a, j) { assert SameRun(p, i, j); }
      }
      if AllSet(a, idx, end - idx) {
        forall j: nat | j < 64 * |p| && SameRun(p, i, j) ensures BitAt(a, j) { WithinBorders(p, idx, end, i, j); }
      }
    }
  }

  lemma WithinBorders(p: seq<Word>, idx: nat, end: nat, i: nat, j: nat)
    requires idx <= i < end && end <= (idx / 64 + 1) * 64 && AllSet(p, idx, end - idx)
    requires RunBorder(p, idx) && RunBorder(p, end) && SameRun(p, i, j)
    ensures idx <= j < end
  {
    assert BitAt(p, idx) && BitAt(p, end - 1);
    var before := idx > 0 && BitAt(p, idx - 1);
    var behind := end < 64 * |p| && BitAt(p, end);
    assert before || j >= idx;
    assert behind || j < end;
  }

  lemma PurgedFurther(p: seq<Word>, f: seq<Word>, a: seq<Word>, a1: seq<Word>, a2: seq<Word>,
                      decommit: bool, idx: nat, end: nat, claimed: bool)
    requires |f| == |p| && Purged(p, f, a, a1, decommit, idx)
    requires idx < end && end <= (idx / 64 + 1) * 64 && AllSet(p, idx, end - idx)
    requires RunBorder(p, idx) && RunBorder(p, end)
    requires forall i: nat :: idx <= i < end ==> (RunIn(p, f, i) <==> claimed)
    requires if claimed && decommit then AllOrNone(a1, a2, idx, end - idx) else a2 == a1
    ensures Purged(p, f, a, a2, decommit, end)
  {
    RunDecided(p, a, idx, end);
    assert AllSet(a1, idx, end - idx) <==> AllSet(a, idx, end - idx);
  }

  lemma ForgotFurther(p: seq<Word>, f: seq<Word>, w: set<nat>, w1: set<nat>, w2: set<nat>,
                      decommit: bool, idx: nat, end: nat, claimed: bool)
    requires |f| == |p| && Forgot(p, f, w, w1, decommit, idx) && idx < end
    requires forall i: nat :: idx <= i < end ==> (RunIn(p, f, i) <==> claimed)
    requires w2 == if claimed && decommit then w1 - Slices(idx, end - idx) else w1
    ensures Forgot(p, f, w, w2, decommit, end)
  {
  }

  lemma MoreRunsIn(p: seq<Word>, f: seq<Word>, idx: nat, end: nat, claimed: bool)
    requires |f| == |p| && idx < end <= 64 * |p|
    requires forall i: nat :: idx <= i < end ==> (RunIn(p, f, i) <==> claimed)
    ensures SomeRunIn(p, f, end) <==> SomeRunIn(p, f, idx) || claimed
  {
    if claimed { assert RunIn(p, f, idx); }
  }

  lemma WalkPast(p0: seq<Word>, f: seq<Word>, m0: Marks, p: seq<Word>, m: Marks, decommit: bool, idx: nat, purged: bool)
    requires |f| == |p0| && WalkedTo(p0, f, m0, p, m, decommit, idx, purged)
    requires idx < 64 * |p| && !BitAt(p, idx)
    ensures WalkedTo(p0, f, m0, p, m, decommit, idx + 1, purged)
  {
    assert !RunIn(p0, f, idx);
  }

  lemma WalkRun(p0: seq<Word>, f: seq<Word>, m0: Marks, p: seq<Word>, m: Marks, p': seq<Word>, m': Marks,
                decommit: bool, idx: nat, end: nat, purged: bool, claimed: bool)
    requires |f| == |p0| && WalkedTo(p0, f, m0, p, m, decommit, idx, purged)
    requires idx < end && end <= (idx / 64 + 1) * 64 && AllSet(p, idx, end - idx) && RunBorder(p, end)
    requires claimed <==> AllSet(f, idx, end - idx)
    requires WithClear(p, p', idx, end - idx) && RunLost(m, m', idx, end - idx, claimed && decommit)
    ensures WalkedTo(p0, f, m0, p', m', decommit, end, purged || claimed)
  {
    assert forall i: nat :: idx <= i < end ==> BitAt(p, i) && BitAt(p0, i);
    assert RunBorder(p0, end);
    RunDecided(p0, f, idx, end);
    PurgedFurther(p0, f, m0.commit, m.commit, m'.commit, decommit, idx, end, claimed);
    PurgedFurther(p0, f, m0.dirty, m.dirty, m'.dirty, decommit, idx, end, claimed);
    ForgotFurther(p0, f, m0.written, m.written, m'.written, decommit, idx, end, claimed);
    ForgotFurther(p0, f, m0.backed, m.backed, m'.backed, decommit, idx, end, claimed);
    MoreRunsIn(p0, f, idx, end, claimed);
  }

  // ----- what each operation keeps ------------------------------------------

  lemma InitialFollows(f: seq<Word>, c: seq<Word>, p: seq<Word>, d: seq<Word>,
                       count: nat, eager: bool, z: bool, written: set<nat>)
    requires |f| == |c| == |p| == |d| && count <= 64 * |f|
    requires Filled(f, count, true) && Filled(c, count, eager) && Filled(p, count, false) && Filled(d, count, !z)
    requires z ==> written == {}
    ensures Follows(f, c, p, d, count, z, {}, written) && Settled(p, c, d)
    ensures Truthful(c, if eager then Slices(0, count) else {})
  {
  }

  lemma AllocatedRun(f: seq<Word>, c: seq<Word>, p: seq<Word>, d: seq<Word>, count: nat, z: bool,
                     used: set<nat>, written: set<nat>, idx: nat, n: nat)
    requires |f| == |c| == |p| == |d| && Follows(f, c, p, d, count, z, used, written)
    requires AllSet(f, idx, n) && n >= 1
    ensures idx + n <= count && Slices(idx, n) !! used && Slices(idx, n) <= Slices(0, count) - used
  {
    assert BitAt(f, idx + n - 1);
    forall i: nat | i in Slices(idx, n) ensures i !in used { assert BitAt(f, i); }
  }

  /// A run with no dirty bit in an arena that began zeroed was never written.
  lemma CleanRun(f: seq<Word>, c: seq<Word>, p: seq<Word>, d: seq<Word>, count: nat,
                 used: set<nat>, written: set<nat>, bytes: set<nat>, idx: nat, n: nat)
    requires |f| == |c| == |p| == |d| && Follows(f, c, p, d, count, true, used, written)
    requires Accounts(bytes, written) && AllClear(d, idx, n) && idx + n <= count
    ensures Slices(idx, n) !! written && RunIsZero(bytes, idx, n)
  {
    forall i: nat | i in Slices(idx, n) ensures i !in written { assert !BitAt(d, i); }
  }

  lemma AfterAlloc(f: seq<Word>, f': seq<Word>, c: seq<Word>, c': seq<Word>, p: seq<Word>, d: seq<Word>, d': seq<Word>,
                   count: nat, z: bool, used: set<nat>, written: set<nat>, idx: nat, n: nat)
    requires |f| == |c| == |p| == |d| && Follows(f, c, p, d, count, z, used, written)
    requires idx + n <= count
    requires WithClear(f, f', idx, n) && WithSet(c, c', idx, n) && WithSet(d, d', idx, n)
    ensures Follows(f', c', p, d', count, z, used + Slices(idx, n), written)
    ensures Settled(p, c, d) ==> Settled(p, c', d')
  {
  }

  lemma AfterFree(f: seq<Word>, f': seq<Word>, c: seq<Word>, p: seq<Word>, d: seq<Word>,
                  count: nat, z: bool, used: set<nat>, written: set<nat>, idx: nat, n: nat)
    requires |f| == |c| == |p| == |d| && Follows(f, c, p, d, count, z, used, written)
    requires Slices(idx, n) <= used && idx + n <= count && WithSet(f, f', idx, n)
    ensures Follows(f', c, p, d, count, z, used - Slices(idx, n), written)
    ensures AllSet(c, idx, n) && AllSet(d, idx, n)
  {
    forall i: nat | idx <= i < idx + n ensures BitAt(c, i) && BitAt(d, i) { assert i in used; }
  }

  /// A run may be scheduled whatever its marks are; it stays settled only if the
  /// run is committed and dirty.
  lemma AfterSchedule(f: seq<Word>, c: seq<Word>, p: seq<Word>, p': seq<Word>, d: seq<Word>,
                      count: nat, z: bool, used: set<nat>, written: set<nat>, idx: nat, n: nat)
    requires |f| == |c| == |p| == |d| && Follows(f, c, p, d, count, z, used, written)
    requires idx + n <= count && WithSet(p, p', idx, n)
    ensures Follows(f, c, p', d, count, z, used, written)
    ensures Settled(p', c, d) <==> Settled(p, c, d) && AllSet(c, idx, n) && AllSet(d, idx, n)
  {
    if Settled(p', c, d) {
      forall i: nat | i < 64 * |p| && BitAt(p, i) ensures BitAt(c, i) && BitAt(d, i) { assert BitAt(p', i); }
      forall i: nat | idx <= i < idx + n ensures BitAt(c, i) && BitAt(d, i) { assert BitAt(p', i); }
    }
  }

  /// Decommitting a run that is free and no longer scheduled.
  lemma AfterDecommit(f: seq<Word>, c: seq<Word>, c': seq<Word>, p: seq<Word>, p': seq<Word>,
                      d: seq<Word>, d': seq<Word>,
                      count: nat, z: bool, used: set<nat>, written: set<nat>, idx: nat, n: nat)
    requires |f| == |c| == |p| == |d| && Follows(f, c, p, d, count, z, used, written)
    requires AllSet(f, idx, n)
    requires AllOrNone(c, c', idx, n) && AllOrNone(d, d', idx, n) && WithClear(p, p', idx, n)
    ensures Follows(f, c', p', d', count, z, used, written - Slices(idx, n))
  {
    forall i: nat | idx <= i < idx + n ensures i !in used { assert BitAt(f, i); }
  }

  lemma AfterUnschedule(f: seq<Word>, c: seq<Word>, p: seq<Word>, p': seq<Word>, d: seq<Word>,
                        count: nat, z: bool, used: set<nat>, written: set<nat>, idx: nat, n: nat)
    requires |f| == |c| == |p| == |d| && Follows(f, c, p, d, count, z, used, written)
    requires WithClear(p, p', idx, n)
    ensures Follows(f, c, p', d, count, z, used, written)
  {
  }

  lemma Restored(f: seq<Word>, f1: seq<Word>, f2: seq<Word>, idx: nat, n: nat)
    requires AllSet(f, idx, n) && WithClear(f, f1, idx, n) && WithSet(f1, f2, idx, n)
    ensures f2 == f
  {
    SetUndoesClear(f, f1, f2, idx, n, 0);
    SameBits(f, f2);
  }

  /// Where everything scheduled is committed and dirty, a decommitting purge takes
  /// the commit and the dirty bit of every slice it returns, and no run is torn.
  lemma SettledLosesAll(p: seq<Word>, f: seq<Word>, m: Marks, m': Marks, decommit: bool, limit: nat)
    requires |f| == |p| == |m.commit| == |m.dirty| && PurgeEffect(p, f, m, m', decommit, limit)
    ensures Settled(p, m.commit, m.dirty) ==> !Torn(p, f, m.commit)
    ensures Settled(p, m.commit, m.dirty) && decommit ==>
      forall i: nat :: i < limit && RunIn(p, f, i) ==> !BitAt(m'.commit, i) && !BitAt(m'.dirty, i)
  {
  }

  /// After a decommitting purge the commit bits are still those of the slices
  /// with memory behind them iff no run it returned was committed in part.
  lemma TruthfulIffNotTorn(p: seq<Word>, f: seq<Word>, m: Marks, m': Marks, decommit: bool, limit: nat)
    requires |f| == |p| == |m.commit| && PurgeEffect(p, f, m, m', decommit, limit)
    requires forall i: nat :: i < 64 * |p| && BitAt(p, i) ==> i < limit
    ensures Truthful(m.commit, m.backed) ==>
      (Truthful(m'.commit, m'.backed) <==> !(decommit && Torn(p, f, m.commit)))
  {
    if Truthful(m.commit, m.backed) && decommit && Torn(p, f, m.commit) {
      var i: nat :| RunIn(p, f, i) && BitAt(m.commit, i) && !RunIn(p, m.commit, i);
      assert BitAt(m'.commit, i) && i !in m'.backed;
    }
  }
}
