/// What a refused commit leaves behind: an arena that has scheduled for purge what
/// it never committed, and, once that is purged, a commit bit without memory.

module RefusedCommit {
  import opened Chunk
  import opened ArenaState
  import opened Words
  import Arena
  import Bitmap

  lemma FirstSlices(f: seq<Word>, cc: nat, n: nat)
    requires |f| == 8 * cc && cc >= 1 && n <= 512 && AllSet(f, 0, n)
    ensures Bitmap.SomeRun(f, cc, n)
  {
    assert RunAt(f, 512 * 0, 0, n);
    assert HasRun(f, 0, n);
  }

  /// An arena that commits on demand, not pinned and with a positive delay: the
  /// first refused commit makes it schedule an uncommitted slice.
  method ScheduledUncommitted() returns (a: Arena.Arena)
    ensures a.Tracked() && a.Backed() && !a.Valid()
    ensures BitAt(a.purge.words[..], 0) && !BitAt(a.commit.words[..], 0)
  {
    a := new Arena.Arena(1, false, false, true, {});
    assert AllSet(a.free.words[..], 0, 1);
    assert !BitAt(a.commit.words[..], 0);
    FirstSlices(a.free.words[..], a.free.cc, 1);
    var r, clean;
    ghost var taken, p;
    r, clean, taken, p := a.AllocSlices(1, 0, false, 10, 0, Arena.Decommit);
    assert taken.value == 0;
  }

  /// Two slices of which only slice `i` is committed, and scheduled.
  ghost predicate OneCommitted(p: seq<Word>, c: seq<Word>, i: nat) {
    && |p| == |c| && |c| >= 8 && i < 2
    && (forall j: nat :: j < 64 * |c| ==> (BitAt(c, j) <==> j == i))
    && (forall j: nat :: j < 64 * |p| ==> (BitAt(p, j) <==> j == i))
  }

  lemma BothScheduled(p0: seq<Word>, p: seq<Word>, f: seq<Word>, c: seq<Word>, i: nat)
    requires OneCommitted(p0, c, i) && WithSet(p0, p, 0, 2) && |f| == |p| && AllSet(f, 0, 2)
    ensures RunIn(p, f, i) && BitAt(c, i) && !RunIn(p, c, i) && Torn(p, f, c)
  {
    assert SameRun(p, i, 1 - i);
    forall j: nat | j < 64 * |p| && SameRun(p, i, j) ensures BitAt(f, j) {
      assert BitAt(p, j);
    }
  }

  method TwoLazySlices() returns (a: Arena.Arena)
    ensures a.Valid() && a.Backed() && a.used == {} && a.sliceCount == 2 && !a.pinned
    ensures Bitmap.SomeRun(a.free.words[..], a.free.cc, 1) && Bitmap.SomeRun(a.free.words[..], a.free.cc, 2)
    ensures forall j: nat :: j < 64 * |a.commit.words[..]| ==> !BitAt(a.commit.words[..], j)
    ensures fresh(a)
    ensures fresh(a.free.words) && fresh(a.free.chunkmap) && fresh(a.commit.words) && fresh(a.commit.chunkmap)
    ensures fresh(a.purge.words) && fresh(a.purge.chunkmap) && fresh(a.dirty.words) && fresh(a.dirty.chunkmap)
  {
    a := new Arena.Arena(2, false, false, true, {});
    assert AllSet(a.free.words[..], 0, 2);
    FirstSlices(a.free.words[..], a.free.cc, 1);
    FirstSlices(a.free.words[..], a.free.cc, 2);
  }

  /// One of the two slices is allocated and freed.
  method CommitOne(a: Arena.Arena) returns (i: nat)
    requires a.Valid() && a.Backed() && a.used == {} && a.sliceCount == 2 && !a.pinned
    requires Bitmap.SomeRun(a.free.words[..], a.free.cc, 1)
    requires forall j: nat :: j < 64 * |a.commit.words[..]| ==> !BitAt(a.commit.words[..], j)
    modifies a, a.free.words, a.free.chunkmap, a.commit.words, a.commit.chunkmap
    modifies a.purge.words, a.purge.chunkmap, a.dirty.words, a.dirty.chunkmap
    ensures a.Valid() && a.Backed() && a.used == {}
    ensures OneCommitted(a.purge.words[..], a.commit.words[..], i)
  {
    assert forall j: nat :: j < 64 * |a.purge.words[..]| ==> !BitAt(a.purge.words[..], j);
    var r, clean;
    ghost var taken, p;
    r, clean, taken, p := a.AllocSlices(1, 0, true, 10, 0, Arena.Decommit);
    i := r.value;
    p := a.FreeSlices(i, 1, 10, 0, Arena.Decommit);
  }

  /// A refused commit of both slices and a purge leave the commit bit of the one
  /// set and its memory gone.
  method StaleCommitBit() returns (a: Arena.Arena, i: nat)
    ensures a.Valid() && i < 2 && BitAt(a.commit.words[..], i) && i !in a.backed
  {
    a := TwoLazySlices();
    i := CommitOne(a);
    assert AllSet(a.free.words[..], 0, 2);
    FirstSlices(a.free.words[..], a.free.cc, 2);
    assert !BitAt(a.commit.words[..], 1 - i);
    ghost var p0, c0 := a.purge.words[..], a.commit.words[..];
    var r, clean;
    ghost var taken, p;
    r, clean, taken, p := a.AllocSlices(2, 0, false, 10, 0, Arena.Decommit);
    assert taken.value == 0;
    BothScheduled(p0, p, a.free.words[..], c0, i);
    var purged := a.MaybePurge(true, 0, Arena.Decommit);
  }
}
