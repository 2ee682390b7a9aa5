/// The step machine, left alone, computes what the page's methods compute.

module PageRefinement {
  import opened PageProtocol
  import opened PageLists

  /// The next `n` actions of thread `t` with nobody else's in between; `ok` tells
  /// whether the registry has memory.
  function Alone(t: Tid, ok: bool, n: nat): (r: seq<Step>)
    ensures |r| == n
  {
    if n == 0 then [] else [Advance(t, ok)] + Alone(t, ok, n - 1)
  }

  /// What the actions of a collect leave alone.
  ghost predicate SameRest(s: State, s': State) { s'.cfg == s.cfg && s'.sh == s.sh && s'.inside == s.inside }

  lemma {:induction false} SpliceAlone(s: State, t: Tid, ok: bool, chain: seq<Block>, ret: Return) returns (s': State)
    requires t < |s.pc| && s.pc[t] == Splice(chain, ret)
    ensures Run(s, Alone(t, ok, |chain| + 1), s') && SameRest(s, s')
    ensures s'.q == s.q.(free := s.q.local + Reversed(chain) + s.q.free, local := [], used := s.q.used - |chain|)
    ensures s'.pc == s.pc[t := Resume(ret)]
    ensures s'.mem.freeIsZero == (s.mem.freeIsZero && s.q.local == [])
    decreases |chain|
  {
    var s1 := DoSplice(s, t, chain, ret);
    if chain == [] {
      assert s.q.local + Reversed(chain) == s.q.local;
      s' := s1;
    } else {
      s' := SpliceAlone(s1, t, ok, chain[1..], ret);
      assert s.q.local + Reversed(chain[1..]) + ([chain[0]] + s.q.free)
          == s.q.local + (Reversed(chain[1..]) + [chain[0]]) + s.q.free;
    }
    AloneFrom(s, t, ok, |chain|, s');
  }

  lemma AloneFrom(s: State, t: Tid, ok: bool, n: nat, s': State)
    requires CanAdvance(s, t) && Run(DoAdvance(s, t, ok), Alone(t, ok, n), s')
    ensures Run(s, Alone(t, ok, n + 1), s')
  {
    RunFrom(s, Advance(t, ok), Alone(t, ok, n), s');
  }

  /// A collect without interference has the effect of `Page.Collect`.
  lemma CollectAlone(s: State, t: Tid, ok: bool, ret: Return) returns (s': State)
    requires t < |s.pc| && s.pc[t] == Capture(ret)
    ensures Run(s, Alone(t, ok, |s.q.xfree| + 2), s') && SameRest(s, s')
    ensures s'.q == Collected(s.q) && s'.pc == s.pc[t := Resume(ret)]
    ensures s'.mem.freeIsZero == (s.mem.freeIsZero && NothingFreed(s.q))
  {
    var s1 := DoCapture(s, t, ret);
    s' := SpliceAlone(s1, t, ok, s.q.xfree, ret);
    AloneFrom(s, t, ok, |s.q.xfree| + 1, s');
  }
}
