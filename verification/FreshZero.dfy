/// From the arena's promise of clean slices to zeroed allocations: a page made
/// of a run that the arena reports clean starts, and stays, honest about its
/// blocks being zero. What may be non-zero is the arena's own account, which
/// every operation of the arena keeps.

module FreshZero {
  import opened PageProtocol
  import opened PageTheorems
  import opened HeapState
  import opened SizeClasses
  import opened SliceRuns
  import opened Wrappers
  import opened Chunk
  import Arena

  /// The machine's state of a page just made of the run of `h`, by thread `t`:
  /// its bytes are those of the run, `nonZero` the addresses of bytes that may
  /// not be zero, and `clean` what the arena said of the run.
  ghost predicate JustMade(s: State, t: Tid, h: Head, clean: bool, nonZero: set<nat>) {
    && t < |s.pc| && s.pc[t].Own? && (forall u :: 0 <= u < |s.pc| && u != t ==> s.pc[u].Out?)
    && s.q == h.q && s.sh == Shared(true, Owner(t), false, false, false, 0) && s.inside == {}
    && s.cfg.reserved == Reserved(h) && s.cfg.batch >= 1
    && s.cfg.blockSize == h.bs && (s.cfg.huge <==> h.bin == BIN_HUGE) && (s.cfg.huge ==> !Small(s.cfg))
    && s.mem.freeIsZero == clean
    && (forall x :: x in s.mem.dirty ==>
          x.block < Reserved(h) && x.off < h.bs && BlockAt(h, x.block) + x.off in nonZero)
  }

  lemma InSlices(h: Head, a: nat)
    requires h.slice * SLICE_SIZE <= a < (h.slice + h.count) * SLICE_SIZE
    ensures a / SLICE_SIZE in Slices(h.slice, h.count)
  {
  }

  /// In a run without a non-zero byte, no byte of any block is non-zero.
  lemma CleanRunIsZero(t: seq<nat>, h: Head, nonZero: set<nat>, b: Block, off: nat)
    requires HeadOk(t, h) && RunIsZero(nonZero, h.slice, h.count) && b < Reserved(h) && off < h.bs
    ensures BlockAt(h, b) + off !in nonZero
  {
    BlockInside(t, h, b);
    InSlices(h, BlockAt(h, b) + off);
  }

  /// So the page starts as the page machine supposes; on a clean run its memory
  /// is zero throughout, the first words included.
  lemma CleanPageStartsZero(t: seq<nat>, s: State, tid: Tid, h: Head, clean: bool, nonZero: set<nat>)
    requires HeadOk(t, h) && Fresh(h) && JustMade(s, tid, h, clean, nonZero)
    requires clean ==> RunIsZero(nonZero, h.slice, h.count)
    ensures clean ==> s.mem.dirty == {}
    ensures Init(s, tid) || InitHuge(s, tid)
  {
    if clean {
      forall x ensures x !in s.mem.dirty {
        if x in s.mem.dirty { CleanRunIsZero(t, h, nonZero, x.block, x.off); }
      }
    }
  }

  /// Whatever the arena said, and whatever all threads do from then on, a zeroed
  /// allocation from the page is zero as far as it was asked for, and throughout
  /// its block above the limit.
  lemma ZeroedFromArena(t: seq<nat>, s: State, tid: Tid, h: Head, clean: bool, nonZero: set<nat>,
                        steps: seq<Step>, s1: State, u: Tid, size: nat)
    requires HeadOk(t, h) && Fresh(h) && JustMade(s, tid, h, clean, nonZero)
    requires clean ==> RunIsZero(nonZero, h.slice, h.count)
    requires PageProtocol.Run(s, steps, s1) && Enabled(s1, Alloc(u, Zeroed(size)))
    ensures var s2 := Apply(s1, Alloc(u, Zeroed(size)));
      var b := s1.q.free[0];
      && b in s2.q.live && (forall off: nat :: off < size ==> Byte(b, off) !in s2.mem.dirty)
      && (size > ZERO_VIA_PAGE_MIN ==> BlockIsZero(s2, b))
  {
    CleanPageStartsZero(t, s, tid, h, clean, nonZero);
    assert Reachable(s1);
    ZeroedIsZero(s1, u, size);
  }

  /// A huge block is served as its page is made, and zeroed right after: on a
  /// clean run by leaving it alone.
  lemma HugeZeroed(t: seq<nat>, s: State, tid: Tid, h: Head, clean: bool, nonZero: set<nat>, size: nat)
    requires HeadOk(t, h) && Fresh(h) && JustMade(s, tid, h, clean, nonZero) && h.bin == BIN_HUGE
    requires clean ==> RunIsZero(nonZero, h.slice, h.count)
    requires size > ZERO_VIA_PAGE_MIN
    ensures var mem := ServeZeroed(s.cfg, s.mem, 0, size);
      && 0 in s.q.live
      && (clean ==> mem == s.mem)
      && (forall off: nat :: off < h.bs ==> Byte(0, off) !in mem.dirty)
  {
    CleanPageStartsZero(t, s, tid, h, clean, nonZero);
  }

  /// A page `h` on the `n` slices from `idx`, and the machine's state of it.
  ghost predicate PageOn(t: seq<nat>, h: Head, idx: nat, n: nat, s: State, tid: Tid, clean: bool, nonZero: set<nat>) {
    HeadOk(t, h) && Fresh(h) && h.slice == idx && h.count == n && JustMade(s, tid, h, clean, nonZero)
  }

  /// With an arena in any state its operations can bring it to, refused commits
  /// included, a page made of the run it hands out starts as the page machine
  /// supposes, and is known zero if the arena began zeroed and no slice of the run
  /// was handed out since its last decommit.
  method CarvePage(a: Arena.Arena, n: nat, tseq: nat, commitOk: bool, delay: int, now: nat, mode: Arena.PurgeMode)
    returns (r: Option<nat>, clean: bool)
    requires a.Tracked() && n <= 512
    modifies a`used, a`purgeExpire, a`written, a`nonZero, a`backed, a.free.words, a.free.chunkmap
    modifies a.commit.words, a.commit.chunkmap, a.purge.words, a.purge.chunkmap, a.dirty.words, a.dirty.chunkmap
    ensures a.Tracked()
    ensures r.Some? ==>
      forall t, h, s, tid :: PageOn(t, h, r.value, n, s, tid, clean, a.nonZero) ==>
        && (Init(s, tid) || InitHuge(s, tid))
        && (s.mem.freeIsZero <==> a.initiallyZero && AllClear(old(a.dirty.words[..]), r.value, n))
  {
    ghost var taken, p;
    r, clean, taken, p := a.AllocSlices(n, tseq, commitOk, delay, now, mode);
    if r.Some? {
      forall t, h, s, tid | PageOn(t, h, r.value, n, s, tid, clean, a.nonZero)
        ensures Init(s, tid) || InitHuge(s, tid)
        ensures s.mem.freeIsZero == clean
      {
        CleanPageStartsZero(t, s, tid, h, clean, a.nonZero);
      }
    }
  }
}
