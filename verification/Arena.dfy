/// An arena: slices handed out by the free bitmap, with commit, purge and dirty
/// bitmaps that must agree with it.

module Arena {
  import opened Wrappers
  import opened Words
  import opened Chunk
  import opened SliceRuns
  import opened ArenaState
  import Bitmap

  /// What `os::purge_ex` does, from the process options.
  datatype PurgeMode = Disabled | Decommit | Reset

  /// A fresh bitmap with its first `n` bits set, or none.
  method NewBitmap(chunks: nat, n: nat, fill: bool) returns (b: Bitmap.Bitmap)
    requires 1 <= chunks <= 512 && n <= 512 * chunks
    ensures b.Valid() && b.cc == chunks && fresh(b) && fresh(b.words) && fresh(b.chunkmap)
    ensures Filled(b.words[..], n, fill)
  {
    b := new Bitmap.Bitmap(chunks);
    if fill { b.UnsafeSetN(0, n); }
  }

  class Arena {
    const sliceCount: nat
    const pinned: bool
    const initiallyZero: bool
    const free: Bitmap.Bitmap
    const commit: Bitmap.Bitmap
    const purge: Bitmap.Bitmap
    const dirty: Bitmap.Bitmap
    var purgeExpire: int
    ghost var used: set<nat>         // slices handed out
    ghost var written: set<nat>      // slices that may hold a non-zero byte
    ghost var nonZero: set<nat>      // bytes that may be non-zero
    ghost var backed: set<nat>       // slices with memory behind them

    ghost predicate Shape()
      reads free.words, free.chunkmap, commit.words, commit.chunkmap
      reads purge.words, purge.chunkmap, dirty.words, dirty.chunkmap
    {
      && free.Valid() && commit.Valid() && purge.Valid() && dirty.Valid()
      && free.cc == commit.cc == purge.cc == dirty.cc
      && {free.words, free.chunkmap} !! {commit.words, commit.chunkmap}
         !! {purge.words, purge.chunkmap} !! {dirty.words, dirty.chunkmap}
    }

    /// What every operation keeps, whatever the OS refuses.
    ghost predicate Tracked()
      reads this
      reads free.words, free.chunkmap, commit.words, commit.chunkmap
      reads purge.words, purge.chunkmap, dirty.words, dirty.chunkmap
    {
      && Shape() && Accounts(nonZero, written)
      && Follows(free.words[..], commit.words[..], purge.words[..], dirty.words[..],
                 sliceCount, initiallyZero, used, written)
    }

    /// Moreover, what is scheduled for purge is committed and dirty.
    ghost predicate Valid()
      reads this
      reads free.words, free.chunkmap, commit.words, commit.chunkmap
      reads purge.words, purge.chunkmap, dirty.words, dirty.chunkmap
    {
      Tracked() && Settled(purge.words[..], commit.words[..], dirty.words[..])
    }

    /// The commit bitmap tells which slices have memory behind them.
    ghost predicate Backed()
      reads this, commit.words
    {
      Truthful(commit.words[..], backed)
    }

    ghost function FreeSet(): set<nat>
      reads this
    {
      Slices(0, sliceCount) - used
    }

    ghost function State(): Marks
      reads this, commit.words, dirty.words
    {
      Marks(commit.words[..], dirty.words[..], written, backed)
    }

    /// A fresh arena: everything free, committed up front if `eager`. `bytes` are
    /// those the OS did not hand out zeroed.
    constructor (sliceCount: nat, eager: bool, pinned: bool, initiallyZero: bool, ghost bytes: set<nat>)
      requires 1 <= sliceCount <= 512 * 512
      requires initiallyZero ==> bytes == {}
      ensures Valid() && Backed() && used == {} && nonZero == bytes && this.sliceCount == sliceCount
      ensures written == set a | a in bytes :: a / SLICE_SIZE
      ensures backed == if eager then Slices(0, sliceCount) else {}
      ensures this.pinned == pinned && this.initiallyZero == initiallyZero && purgeExpire == 0
      ensures fresh(free.words) && fresh(free.chunkmap) && fresh(commit.words) && fresh(commit.chunkmap)
      ensures fresh(purge.words) && fresh(purge.chunkmap) && fresh(dirty.words) && fresh(dirty.chunkmap)
      ensures AllClear(purge.words[..], 0, 512 * purge.cc)
      ensures Filled(dirty.words[..], sliceCount, !initiallyZero)
    {
      var chunks := (sliceCount + 511) / 512;
      var f := NewBitmap(chunks, sliceCount, true);
      var c := NewBitmap(chunks, sliceCount, eager);
      var p := NewBitmap(chunks, sliceCount, false);
      var d := NewBitmap(chunks, sliceCount, !initiallyZero);
      ghost var w := set a | a in bytes :: a / SLICE_SIZE;
      InitialFollows(f.words[..], c.words[..], p.words[..], d.words[..], sliceCount, eager, initiallyZero, w);
      this.sliceCount, this.pinned, this.initiallyZero := sliceCount, pinned, initiallyZero;
      free, commit, purge, dirty := f, c, p, d;
      purgeExpire := 0;
      used, written, nonZero := {}, w, bytes;
      backed := if eager then Slices(0, sliceCount) else {};
    }

    /// Commit on demand; `commitOk` tells whether the OS grants what it is asked.
    method EnsureCommitted(idx: nat, n: nat, commitOk: bool) returns (ok: bool)
      requires Shape() && n >= 1 && idx % 512 + n <= 512 && idx + n <= 512 * commit.cc
      modifies this`backed, commit.words, commit.chunkmap
      ensures Shape()
      ensures ok <==> commitOk || AllSet(old(commit.words[..]), idx, n)
      ensures if ok then WithSet(old(commit.words[..]), commit.words[..], idx, n)
              else commit.words[..] == old(commit.words[..])
      ensures backed == old(backed) +
                        (if commitOk && !AllSet(old(commit.words[..]), idx, n) then Slices(idx, n) else {})
      ensures old(Backed()) ==> Backed()
    {
      ok := commit.AreSet(idx, n);
      if ok || !commitOk { return; }
      var _ := commit.SetBits(idx, n);
      backed := backed + Slices(idx, n);
      return true;
    }

    /// The program writes to slices it holds: bytes change there only.
    ghost method Write(slices: set<nat>, bytes: set<nat>)
      requires Tracked() && slices <= used
      requires forall a :: a in bytes && a !in nonZero ==> a / SLICE_SIZE in slices
      modifies this`written, this`nonZero
      ensures Tracked() && (Valid() <==> old(Valid()))
      ensures written == old(written) + slices && nonZero == bytes
    {
      written := written + slices;
      nonZero := bytes;
    }

    // ----- purging ----------------------------------------------------------

    /// A run is decommitted: its memory is gone, and so are its commit and dirty
    /// bits, each all or none.
    method DecommitRun(idx: nat, n: nat)
      requires Shape() && idx % 512 + n <= 512 && idx < 512 * free.cc
      modifies this`written, this`nonZero, this`backed, commit.words, commit.chunkmap, dirty.words, dirty.chunkmap
      ensures Shape() && RunLost(old(State()), State(), idx, n, true)
      ensures nonZero == Within(old(nonZero), written)
    {
      var _ := commit.ClearBits(idx, n);
      var _ := dirty.ClearBits(idx, n);
      written, backed := written - Slices(idx, n), backed - Slices(idx, n);
      nonZero := Within(nonZero, written);
    }

    /// Claim one scheduled run, return its memory to the OS, and give it back.
    /// A run that is in use again is left as it is.
    method PurgeRun(idx: nat, n: nat, mode: PurgeMode) returns (claimed: bool)
      requires Tracked() && n >= 1 && idx % 512 + n <= 512 && idx < 512 * free.cc
      requires AllSet(purge.words[..], idx, n)
      modifies this`written, this`nonZero, this`backed
      modifies free.words, free.chunkmap, commit.words, commit.chunkmap
      modifies purge.words, purge.chunkmap, dirty.words, dirty.chunkmap
      ensures Tracked() && free.words[..] == old(free.words[..])
      ensures WithClear(old(purge.words[..]), purge.words[..], idx, n)
      ensures claimed <==> AllSet(free.words[..], idx, n)
      ensures RunLost(old(State()), State(), idx, n, claimed && mode.Decommit?)
      ensures nonZero == Within(old(nonZero), written)
    {
      ghost var f0, c0, p0, d0 := free.words[..], commit.words[..], purge.words[..], dirty.words[..];
      claimed := free.ClearBits(idx, n);
      if claimed {
        if mode.Decommit? { DecommitRun(idx, n); }
        ghost var f1 := free.words[..];
        var _ := free.SetBits(idx, n);
        Restored(f0, f1, free.words[..], idx, n);
      }
      var _ := purge.ClearBits(idx, n);
      if claimed && mode.Decommit? {
        AfterDecommit(f0, c0, commit.words[..], p0, purge.words[..], d0, dirty.words[..],
                      sliceCount, initiallyZero, used, old(written), idx, n);
      } else {
        AfterUnschedule(f0, c0, p0, purge.words[..], d0, sliceCount, initiallyZero, used, written, idx, n);
      }
    }

    /// One round of the walk: past a slice that is not scheduled, or a whole run.
    method PurgeNext(idx: nat, mode: PurgeMode, was: bool, ghost p0: seq<Word>, ghost f: seq<Word>, ghost m0: Marks)
      returns (next: nat, purged: bool)
      requires Tracked() && idx < sliceCount && free.words[..] == f && |p0| == |f|
      requires WalkedTo(p0, f, m0, purge.words[..], State(), mode.Decommit?, idx, was)
      modifies this`written, this`nonZero, this`backed
      modifies free.words, free.chunkmap, commit.words, commit.chunkmap
      modifies purge.words, purge.chunkmap, dirty.words, dirty.chunkmap
      ensures Tracked() && idx < next <= sliceCount && free.words[..] == f
      ensures WalkedTo(p0, f, m0, purge.words[..], State(), mode.Decommit?, next, purged)
      ensures nonZero == Within(old(nonZero), written) && written <= old(written)
    {
      ghost var p1, m1 := purge.words[..], State();
      var end := RunEnd(idx);
      next, purged := idx + 1, was;
      if end == idx {
        WalkPast(p0, f, m0, p1, m1, mode.Decommit?, idx, was);
      } else {
        var claimed := PurgeRun(idx, end - idx, mode);
        WalkRun(p0, f, m0, p1, m1, purge.words[..], State(), mode.Decommit?, idx, end, was, claimed);
        next, purged := end, was || claimed;
      }
    }

    /// Walk the purge bitmap, one run within a 64-bit field at a time. Afterwards
    /// nothing is scheduled, the free slices are those free before, and exactly
    /// the runs still wholly free are decommitted, clean and zero.
    method RunPurge(mode: PurgeMode) returns (purged: bool)
      requires Tracked()
      modifies this`written, this`nonZero, this`backed
      modifies free.words, free.chunkmap, commit.words, commit.chunkmap
      modifies purge.words, purge.chunkmap, dirty.words, dirty.chunkmap
      ensures Valid() && free.words[..] == old(free.words[..])
      ensures AllClear(purge.words[..], 0, 512 * purge.cc)
      ensures PurgeEffect(old(purge.words[..]), free.words[..], old(State()), State(), mode.Decommit?, sliceCount)
      ensures purged <==> SomeRunIn(old(purge.words[..]), free.words[..], sliceCount)
      ensures nonZero == Within(old(nonZero), written)
      ensures old(Backed()) ==>
        (Backed() <==> !(mode.Decommit? && Torn(old(purge.words[..]), free.words[..], old(commit.words[..]))))
      ensures old(Valid()) && old(Backed()) ==> Backed()
      ensures old(Valid()) && mode.Decommit? ==>
        forall i: nat :: i < sliceCount && RunIn(old(purge.words[..]), free.words[..], i) ==>
          !BitAt(commit.words[..], i) && !BitAt(dirty.words[..], i)
    {
      ghost var f, p0, m0, z0 := free.words[..], purge.words[..], State(), nonZero;
      purged := false;
      var idx := 0;
      while idx < sliceCount
        invariant idx <= sliceCount && Tracked() && free.words[..] == f
        invariant WalkedTo(p0, f, m0, purge.words[..], State(), mode.Decommit?, idx, purged)
        invariant nonZero == Within(z0, written)
      {
        idx, purged := PurgeNext(idx, mode, purged, p0, f, m0);
      }
      forall i: nat | i < 512 * purge.cc ensures !BitAt(purge.words[..], i) {
      }
      TruthfulIffNotTorn(p0, f, m0, State(), mode.Decommit?, sliceCount);
      SettledLosesAll(p0, f, m0, State(), mode.Decommit?, sliceCount);
    }

    /// The end of the scheduled run at `idx`, within its field; `idx` if none.
    method RunEnd(idx: nat) returns (end: nat)
      requires Tracked() && idx < sliceCount
      ensures idx <= end <= sliceCount && end <= (idx / 64 + 1) * 64 && idx % 512 + (end - idx) <= 512
      ensures AllSet(purge.words[..], idx, end - idx)
      ensures end == idx ==> !BitAt(purge.words[..], idx)
      ensures RunBorder(purge.words[..], end)
    {
      var limit := (idx / 64 + 1) * 64;
      FieldInChunk(idx, limit);
      end := idx;
      while end < sliceCount && end < limit
        invariant idx <= end <= sliceCount && end <= limit
        invariant AllSet(purge.words[..], idx, end - idx)
      {
        var there := purge.AreSet(end, 1);
        if !there {
          assert !BitAt(purge.words[..], end);
          break;
        }
        end := end + 1;
      }
    }

    // ----- giving back ------------------------------------------------------

    /// Schedule a delayed purge; a zero delay purges at once, and a negative
    /// delay or a pinned arena never does. `p` is the purge bitmap with the run
    /// scheduled.
    method SchedulePurge(idx: nat, n: nat, delay: int, now: nat, mode: PurgeMode) returns (ghost p: seq<Word>)
      requires Tracked() && n >= 1 && idx % 512 + n <= 512 && idx + n <= sliceCount
      modifies this`purgeExpire, this`written, this`nonZero, this`backed
      modifies free.words, free.chunkmap, commit.words, commit.chunkmap
      modifies purge.words, purge.chunkmap, dirty.words, dirty.chunkmap
      ensures Tracked() && free.words[..] == old(free.words[..]) && |p| == |free.words[..]|
      ensures Scheduled(old(purge.words[..]), p, purge.words[..], old(purgeExpire), purgeExpire,
                        idx, n, delay, now, pinned)
      ensures PurgeEffect(p, free.words[..], old(State()), State(),
                          delay == 0 && !pinned && mode.Decommit?, sliceCount)
      ensures nonZero == Within(old(nonZero), written)
      ensures Valid() <==>
        || (delay == 0 && !pinned)
        || (old(Valid()) && (delay < 0 || pinned ||
                             (AllSet(old(commit.words[..]), idx, n) && AllSet(old(dirty.words[..]), idx, n))))
      ensures old(Backed()) ==>
        (Backed() <==> !(delay == 0 && !pinned && mode.Decommit? && Torn(p, free.words[..], old(commit.words[..]))))
      ensures AllSet(old(commit.words[..]), idx, n) && AllSet(old(dirty.words[..]), idx, n) ==>
                old(Valid()) && old(Backed()) ==> Backed()
    {
      p := purge.words[..];
      if delay < 0 || pinned { return; }
      ghost var p0 := p;
      var _ := purge.SetBits(idx, n);
      p := purge.words[..];
      AfterSchedule(free.words[..], commit.words[..], p0, p, dirty.words[..],
                    sliceCount, initiallyZero, used, written, idx, n);
      if delay == 0 {
        var _ := RunPurge(mode);
      } else if purgeExpire == 0 {
        purgeExpire := now + delay;
      }
    }

    /// Slices in use become free.
    method Release(idx: nat, n: nat)
      requires Tracked() && n >= 1 && idx % 512 + n <= 512 && idx + n <= sliceCount
      requires Slices(idx, n) <= used
      modifies this`used, free.words, free.chunkmap
      ensures Tracked() && used == old(used) - Slices(idx, n)
      ensures WithSet(old(free.words[..]), free.words[..], idx, n)
      ensures AllSet(commit.words[..], idx, n) && AllSet(dirty.words[..], idx, n)
    {
      ghost var f0 := free.words[..];
      var _ := free.SetBits(idx, n);
      AfterFree(f0, free.words[..], commit.words[..], purge.words[..], dirty.words[..],
                sliceCount, initiallyZero, used, written, idx, n);
      used := used - Slices(idx, n);
    }

    /// Give back slices in use; `p` as for `SchedulePurge`.
    method FreeSlices(idx: nat, n: nat, delay: int, now: nat, mode: PurgeMode) returns (ghost p: seq<Word>)
      requires Tracked() && n >= 1 && idx % 512 + n <= 512 && idx + n <= sliceCount
      requires Slices(idx, n) <= used
      modifies this`used, this`purgeExpire, this`written, this`nonZero, this`backed
      modifies free.words, free.chunkmap, commit.words, commit.chunkmap
      modifies purge.words, purge.chunkmap, dirty.words, dirty.chunkmap
      ensures Tracked() && (Valid() <==> old(Valid()) || (delay == 0 && !pinned))
      ensures used == old(used) - Slices(idx, n) && FreeSet() == old(FreeSet()) + Slices(idx, n)
      ensures WithSet(old(free.words[..]), free.words[..], idx, n) && |p| == |free.words[..]|
      ensures Scheduled(old(purge.words[..]), p, purge.words[..], old(purgeExpire), purgeExpire,
                        idx, n, delay, now, pinned)
      ensures PurgeEffect(p, free.words[..], old(State()), State(),
                          delay == 0 && !pinned && mode.Decommit?, sliceCount)
      ensures nonZero == Within(old(nonZero), written)
      ensures old(Backed()) ==>
        (Backed() <==> !(delay == 0 && !pinned && mode.Decommit? && Torn(p, free.words[..], old(commit.words[..]))))
      ensures old(Valid()) && old(Backed()) ==> Backed()
    {
      Release(idx, n);
      p := SchedulePurge(idx, n, delay, now, mode);
    }

    /// A purge is due; `force` ignores the timer.
    ghost predicate Due(force: bool, now: nat)
      reads this
    {
      !pinned && (force || 0 < purgeExpire <= now || purgeExpire < 0)
    }

    /// Purge what is due. Whatever was scheduled, a purge leaves the bitmaps in
    /// agreement; the commit bits are then true iff no run was torn.
    method MaybePurge(force: bool, now: nat, mode: PurgeMode) returns (purged: bool)
      requires Tracked()
      modifies this`purgeExpire, this`written, this`nonZero, this`backed
      modifies free.words, free.chunkmap, commit.words, commit.chunkmap
      modifies purge.words, purge.chunkmap, dirty.words, dirty.chunkmap
      ensures Tracked() && free.words[..] == old(free.words[..])
      ensures Valid() <==> old(Valid()) || old(Due(force, now))
      ensures PurgeEffect(old(purge.words[..]), free.words[..], old(State()), State(),
                          old(Due(force, now)) && mode.Decommit?, sliceCount)
      ensures nonZero == Within(old(nonZero), written)
      ensures if old(Due(force, now)) then purgeExpire == 0 && AllClear(purge.words[..], 0, 512 * purge.cc)
              else purgeExpire == old(purgeExpire) && purge.words[..] == old(purge.words[..])
      ensures purged <==> old(Due(force, now)) && SomeRunIn(old(purge.words[..]), free.words[..], sliceCount)
      ensures old(Backed()) ==>
        (Backed() <==> !(old(Due(force, now)) && mode.Decommit? &&
                         Torn(old(purge.words[..]), free.words[..], old(commit.words[..]))))
      ensures old(Valid()) && old(Backed()) ==> Backed()
    {
      purged := false;
      if !pinned && (force || (purgeExpire != 0 && purgeExpire <= now)) {
        purgeExpire := 0;
        purged := RunPurge(mode);
      }
    }

    // ----- allocation -------------------------------------------------------

    /// Hand out a committed run: report whether it is clean, and mark it dirty.
    method HandOut(idx: nat, n: nat, ghost f0: seq<Word>, ghost c0: seq<Word>) returns (wasClean: bool)
      requires Shape() && Accounts(nonZero, written) && |f0| == |c0| == |purge.words[..]|
      requires n >= 1 && idx % 512 + n <= 512 && idx + n <= sliceCount
      requires Follows(f0, c0, purge.words[..], dirty.words[..], sliceCount, initiallyZero, used, written)
      requires WithClear(f0, free.words[..], idx, n) && WithSet(c0, commit.words[..], idx, n)
      modifies this`used, dirty.words, dirty.chunkmap
      ensures Tracked() && used == old(used) + Slices(idx, n)
      ensures Settled(purge.words[..], c0, old(dirty.words[..])) ==> Valid()
      ensures wasClean ==> Slices(idx, n) !! written && RunIsZero(nonZero, idx, n)
      ensures wasClean <==> initiallyZero && AllClear(old(dirty.words[..]), idx, n)
      ensures WithSet(old(dirty.words[..]), dirty.words[..], idx, n)
    {
      ghost var d0 := dirty.words[..];
      var clean := dirty.AreClear(idx, n);
      wasClean := initiallyZero && clean;
      if wasClean {
        CleanRun(f0, c0, purge.words[..], d0, sliceCount, used, written, nonZero, idx, n);
      }
      var _ := dirty.SetBits(idx, n);
      AfterAlloc(f0, free.words[..], c0, commit.words[..], purge.words[..], d0, dirty.words[..],
                 sliceCount, initiallyZero, used, written, idx, n);
      used := used + Slices(idx, n);
    }

    /// `free_slices` for a run taken from the free set but never handed out.
    method PutBack(idx: nat, n: nat, delay: int, now: nat, mode: PurgeMode, ghost f0: seq<Word>)
      returns (ghost p: seq<Word>)
      requires Shape() && Accounts(nonZero, written) && |f0| == |free.words[..]|
      requires n >= 1 && idx % 512 + n <= 512 && idx + n <= sliceCount
      requires Follows(f0, commit.words[..], purge.words[..], dirty.words[..], sliceCount, initiallyZero, used, written)
      requires AllSet(f0, idx, n) && WithClear(f0, free.words[..], idx, n)
      modifies this`purgeExpire, this`written, this`nonZero, this`backed
      modifies free.words, free.chunkmap, commit.words, commit.chunkmap
      modifies purge.words, purge.chunkmap, dirty.words, dirty.chunkmap
      ensures Tracked() && free.words[..] == f0 && |p| == |f0|
      ensures Scheduled(old(purge.words[..]), p, purge.words[..], old(purgeExpire), purgeExpire,
                        idx, n, delay, now, pinned)
      ensures PurgeEffect(p, f0, old(State()), State(), delay == 0 && !pinned && mode.Decommit?, sliceCount)
      ensures nonZero == Within(old(nonZero), written)
      ensures Valid() <==>
        || (delay == 0 && !pinned)
        || (Settled(old(purge.words[..]), old(commit.words[..]), old(dirty.words[..])) &&
            (delay < 0 || pinned || (AllSet(old(commit.words[..]), idx, n) && AllSet(old(dirty.words[..]), idx, n))))
      ensures old(Backed()) ==>
        (Backed() <==> !(delay == 0 && !pinned && mode.Decommit? && Torn(p, f0, old(commit.words[..]))))
    {
      ghost var f1 := free.words[..];
      var _ := free.SetBits(idx, n);
      Restored(f0, f1, free.words[..], idx, n);
      p := SchedulePurge(idx, n, delay, now, mode);
    }

    /// The run found is committed and handed out, or put back.
    method Place(idx: nat, n: nat, commitOk: bool, delay: int, now: nat, mode: PurgeMode, ghost f0: seq<Word>)
      returns (ok: bool, wasClean: bool, ghost p: seq<Word>)
      requires Shape() && Accounts(nonZero, written) && |f0| == |free.words[..]|
      requires n >= 1 && idx % 512 + n <= 512 && idx + n <= sliceCount
      requires Follows(f0, commit.words[..], purge.words[..], dirty.words[..], sliceCount, initiallyZero, used, written)
      requires AllSet(f0, idx, n) && WithClear(f0, free.words[..], idx, n)
      modifies this`used, this`purgeExpire, this`written, this`nonZero, this`backed
      modifies free.words, free.chunkmap, commit.words, commit.chunkmap
      modifies purge.words, purge.chunkmap, dirty.words, dirty.chunkmap
      ensures Tracked() && |p| == |f0|
      ensures ok <==> commitOk || AllSet(old(commit.words[..]), idx, n)
      ensures if ok then
                && used == old(used) + Slices(idx, n) && purge.words[..] == old(purge.words[..])
                && written == old(written) && nonZero == old(nonZero) && purgeExpire == old(purgeExpire)
                && WithSet(old(commit.words[..]), commit.words[..], idx, n)
                && WithSet(old(dirty.words[..]), dirty.words[..], idx, n)
                && (wasClean ==> Slices(idx, n) !! written && RunIsZero(nonZero, idx, n))
                && (wasClean <==> initiallyZero && AllClear(old(dirty.words[..]), idx, n))
              else
                && !wasClean && used == old(used) && free.words[..] == f0
                && Scheduled(old(purge.words[..]), p, purge.words[..], old(purgeExpire), purgeExpire,
                             idx, n, delay, now, pinned)
                && PurgeEffect(p, f0, old(State()), State(), delay == 0 && !pinned && mode.Decommit?, sliceCount)
                && nonZero == Within(old(nonZero), written)
      ensures Settled(old(purge.words[..]), old(commit.words[..]), old(dirty.words[..])) ==>
        (Valid() <==> ok || delay <= 0 || pinned)
      ensures old(Backed()) ==>
        (Backed() <==> ok || !(delay == 0 && !pinned && mode.Decommit? && Torn(p, f0, old(commit.words[..]))))
    {
      ghost var c0 := commit.words[..];
      p, wasClean := purge.words[..], false;
      ok := EnsureCommitted(idx, n, commitOk);
      if ok {
        wasClean := HandOut(idx, n, f0, c0);
      } else {
        p := PutBack(idx, n, delay, now, mode, f0);
      }
    }

    /// Allocates `n` slices of one chunk; `wasClean` promises that they are all
    /// zero. `taken` is the run found. If the OS refuses to commit it, it is given
    /// back as by `FreeSlices`: scheduled for purge, though it is not committed.
    method AllocSlices(n: nat, tseq: nat, commitOk: bool, delay: int, now: nat, mode: PurgeMode)
      returns (r: Option<nat>, wasClean: bool, ghost taken: Option<nat>, ghost p: seq<Word>)
      requires Tracked() && n <= 512
      modifies this`used, this`purgeExpire, this`written, this`nonZero, this`backed
      modifies free.words, free.chunkmap, commit.words, commit.chunkmap
      modifies purge.words, purge.chunkmap, dirty.words, dirty.chunkmap
      ensures Tracked()
      ensures n >= 1 ==> (taken.Some? <==> Bitmap.SomeRun(old(free.words[..]), free.cc, n))
      ensures taken.Some? ==>
        && n >= 1 && taken.value % 512 + n <= 512 && taken.value + n <= sliceCount
        && Slices(taken.value, n) !! old(used) && Slices(taken.value, n) <= old(FreeSet())
        && Bitmap.FirstFrom(old(free.words[..]), free.cc, n, tseq % free.cc, taken.value / 512)
        && BestRun(old(free.words[..]), taken.value / 512, n, taken.value % 512)
      ensures r == if Refused(taken, n, old(commit.words[..]), commitOk) then None else taken
      ensures r.Some? ==>
        && used == old(used) + Slices(r.value, n) && FreeSet() == old(FreeSet()) - Slices(r.value, n)
        && WithSet(old(commit.words[..]), commit.words[..], r.value, n)
        && WithSet(old(dirty.words[..]), dirty.words[..], r.value, n)
        && (wasClean ==> Slices(r.value, n) !! written && RunIsZero(nonZero, r.value, n))
        && (wasClean <==> initiallyZero && AllClear(old(dirty.words[..]), r.value, n))
      ensures r.None? ==> !wasClean && used == old(used) && free.words[..] == old(free.words[..])
      ensures |p| == |free.words[..]|
      ensures if Refused(taken, n, old(commit.words[..]), commitOk) then
                && Scheduled(old(purge.words[..]), p, purge.words[..], old(purgeExpire), purgeExpire,
                             taken.value, n, delay, now, pinned)
                && PurgeEffect(p, free.words[..], old(State()), State(),
                               delay == 0 && !pinned && mode.Decommit?, sliceCount)
                && nonZero == Within(old(nonZero), written)
              else
                && purge.words[..] == old(purge.words[..]) && purgeExpire == old(purgeExpire)
                && written == old(written) && nonZero == old(nonZero)
      ensures old(Valid()) ==>
        (Valid() <==> !Refused(taken, n, old(commit.words[..]), commitOk) || delay <= 0 || pinned)
      ensures old(Backed()) ==>
        (Backed() <==> !(Refused(taken, n, old(commit.words[..]), commitOk) && delay == 0 && !pinned &&
                         mode.Decommit? && Torn(p, free.words[..], old(commit.words[..]))))
      ensures r.Some? && old(Backed()) ==> Slices(r.value, n) <= backed
    {
      ghost var f0 := free.words[..];
      r := free.TryFindAndClearN(n, tseq);
      wasClean, taken, p := false, r, purge.words[..];
      if r.None? { return; }
      var idx, ok := r.value, false;
      AllocatedRun(f0, commit.words[..], p, dirty.words[..], sliceCount, initiallyZero, used, written, idx, n);
      ok, wasClean, p := Place(idx, n, commitOk, delay, now, mode, f0);
      if !ok { r := None; }
    }
  }
}
