/// The arena answers a thread heap as the heap supposes: its answers are runs of
/// its free slices, which an allocation takes out and a release puts back.

module ArenaAnswers {
  import opened SliceRuns
  import opened ThreadHeap
  import opened Wrappers
  import Arena

  /// The answer that the arena gives in its present state, and no other.
  function Answer(free: set<nat>, n: nat, r: Option<nat>): Arenas {
    (f, k) => if f == free && k == n then r else None
  }

  /// An arena in any state its operations can bring it to gives an answer that
  /// `ArenasOk` allows; afterwards exactly the run is no longer free.
  method Ask(a: Arena.Arena, n: nat, tseq: nat, commitOk: bool, delay: int, now: nat, mode: Arena.PurgeMode)
    returns (r: Option<nat>)
    requires a.Tracked() && n <= 512
    modifies a`used, a`purgeExpire, a`written, a`nonZero, a`backed, a.free.words, a.free.chunkmap
    modifies a.commit.words, a.commit.chunkmap, a.purge.words, a.purge.chunkmap, a.dirty.words, a.dirty.chunkmap
    ensures a.Tracked() && ArenasOk(Answer(old(a.FreeSet()), n, r))
    ensures Answer(old(a.FreeSet()), n, r)(old(a.FreeSet()), n) == r
    ensures a.FreeSet() == old(a.FreeSet()) - if r.Some? then Slices(r.value, n) else {}
  {
    var clean;
    ghost var taken, p;
    r, clean, taken, p := a.AllocSlices(n, tseq, commitOk, delay, now, mode);
  }

  /// What was taken can be given back, and then the arena has it again.
  method AskAndReturn(a: Arena.Arena, n: nat, tseq: nat, commitOk: bool, delay: int, now: nat, mode: Arena.PurgeMode)
    returns (r: Option<nat>)
    requires a.Tracked() && n <= 512
    modifies a`used, a`purgeExpire, a`written, a`nonZero, a`backed, a.free.words, a.free.chunkmap
    modifies a.commit.words, a.commit.chunkmap, a.purge.words, a.purge.chunkmap, a.dirty.words, a.dirty.chunkmap
    ensures a.Tracked() && a.FreeSet() == old(a.FreeSet())
  {
    var clean;
    ghost var taken, p;
    r, clean, taken, p := a.AllocSlices(n, tseq, commitOk, delay, now, mode);
    if r.Some? {
      p := a.FreeSlices(r.value, n, delay, now, mode);
    }
  }
}
