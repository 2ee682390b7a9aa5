/// When a zeroed allocation leaves its whole block zero, and not just the bytes
/// asked for.

module StaleRest {
  import opened PageProtocol
  import opened PageTheorems

  /// In every reachable state of every page of block size `bs`.
  ghost predicate WholeBlockZeroed(bs: nat, size: nat) {
    forall s: State, t: Tid :: Reachable(s) && s.cfg.blockSize == bs && Enabled(s, Alloc(t, Zeroed(size))) ==>
      BlockIsZero(Apply(s, Alloc(t, Zeroed(size))), s.q.free[0])
  }

  /// A page of one block, just carved by thread 0.
  function OneBlock(bs: nat): State {
    State(Config(1, 1, bs, false), Lists([], [], [], 0, 0, multiset{}),
          Shared(true, Owner(0), false, false, false, 0), Memory(false, {}), {}, [Own])
  }

  /// The page's block, in use, freed and collected.
  lemma Recycle(s: State) returns (steps: seq<Step>, s': State)
    requires s.pc == [Own] && s.sh.stamp == Owner(0) && s.q == Lists([], [], [], 1, 1, multiset{0})
    ensures Run(s, steps, s')
    ensures s'.cfg == s.cfg && s'.pc == [Own] && s'.q.free == [0] && s'.mem.dirty >= s.mem.dirty
  {
    var s1 := Apply(s, FreeLocal(0, 0));
    assert s1.q == Lists([], [0], [], 0, 1, multiset{});
    var s2 := Apply(s1, StartCollect(0));
    var s3 := Apply(s2, Advance(0, true));
    assert s3.pc == [Splice([], ToOwn)];
    s' := Apply(s3, Advance(0, true));
    assert s'.q.free == [0] + [];
    assert Run(s', [], s');
    RunFrom(s3, Advance(0, true), [], s');
    RunFrom(s2, Advance(0, true), [Advance(0, true)] + [], s');
    steps := [Advance(0, true)] + ([Advance(0, true)] + []);
    RunFrom(s1, StartCollect(0), steps, s');
    steps := [StartCollect(0)] + steps;
    RunFrom(s, FreeLocal(0, 0), steps, s');
    steps := [FreeLocal(0, 0)] + steps;
  }

  /// The page's one block carved, served, and written at `off`.
  lemma FirstUse(bs: nat, off: nat) returns (s1: State, s2: State, s3: State)
    requires off < bs
    ensures Enabled(OneBlock(bs), Extend(0)) && s1 == Apply(OneBlock(bs), Extend(0))
    ensures Enabled(s1, Alloc(0, Plain)) && s2 == Apply(s1, Alloc(0, Plain))
    ensures Enabled(s2, Write(0, {off})) && s3 == Apply(s2, Write(0, {off}))
    ensures s3.cfg == OneBlock(bs).cfg && s3.sh == OneBlock(bs).sh && s3.pc == [Own]
    ensures s3.q == Lists([], [], [], 1, 1, multiset{0}) && Byte(0, off) in s3.mem.dirty
  {
    assert Upto(0, 1) == [0];
    s1 := Apply(OneBlock(bs), Extend(0));
    assert s1.q == Lists([0], [], [], 0, 1, multiset{});
    s2 := Apply(s1, Alloc(0, Plain));
    assert s2.q == Lists([], [], [], 1, 1, multiset{0});
    s3 := Apply(s2, Write(0, {off}));
  }

  /// A block written at any offset, freed and collected is served again with
  /// that byte as it was.
  lemma StaleByte(bs: nat, off: nat) returns (s: State)
    requires off < bs
    ensures Reachable(s) && s.cfg.blockSize == bs && s.pc == [Own] && s.q.free == [0] && Byte(0, off) in s.mem.dirty
  {
    var s1, s2, s3 := FirstUse(bs, off);
    var steps: seq<Step>;
    steps, s := Recycle(s3);
    RunFrom(s2, Write(0, {off}), steps, s);
    RunFrom(s1, Alloc(0, Plain), [Write(0, {off})] + steps, s);
    RunFrom(OneBlock(bs), Extend(0), [Alloc(0, Plain)] + ([Write(0, {off})] + steps), s);
    StartsReachable(bs, [Extend(0)] + ([Alloc(0, Plain)] + ([Write(0, {off})] + steps)), s);
  }

  lemma StartsReachable(bs: nat, steps: seq<Step>, s: State)
    requires Run(OneBlock(bs), steps, s)
    ensures Reachable(s)
  {
    assert Init(OneBlock(bs), 0);
  }

  /// The whole block is zero for exactly the requests above the limit, and
  /// those that take all of their block.
  lemma WholeBlockZeroedIff(bs: nat, size: nat)
    requires size <= bs
    ensures WholeBlockZeroed(bs, size) <==> size > ZERO_VIA_PAGE_MIN || size == bs
  {
    if size > ZERO_VIA_PAGE_MIN || size == bs {
      forall s: State, t: Tid | Reachable(s) && s.cfg.blockSize == bs && Enabled(s, Alloc(t, Zeroed(size)))
        ensures BlockIsZero(Apply(s, Alloc(t, Zeroed(size))), s.q.free[0])
      {
        ZeroedIsZero(s, t, size);
      }
    } else {
      var s := StaleByte(bs, size);
      assert Enabled(s, Alloc(0, Zeroed(size)));
      ZeroedIsZero(s, 0, size);
      assert !BlockIsZero(Apply(s, Alloc(0, Zeroed(size))), 0);
    }
  }
}
