/// What one thread's operations on shared heaps come to when it runs them to
/// their end: a theap made once, a heap deleted, a thread's list torn down.

module HeapAlone {
  import opened HeapLifetime

  /// The theaps that were made for other heaps, in their order.
  function Others(reg: seq<Theap>, inc: Inc): seq<Theap> {
    if reg == [] then [] else (if reg[0].inc == inc then [] else [reg[0]]) + Others(reg[1..], inc)
  }

  /// References to the incarnation that thread `t` does not hold in its list.
  function ElsewhereRefs(s: State, t: Tid, inc: Inc): int
    requires t < |s.threads|
  {
    Total(s.threads, inc) - RegRefs(s.threads[t].reg, inc)
  }

  /// Thread `t` alone has moved, no heap is new, and handles are as they were.
  ghost predicate AloneMoved(s: State, s': State, t: Tid, th: Thread) {
    && t < |s.threads| && s'.threads == s.threads[t := th] && |s'.frees| == |s.frees|
    && forall a :: a in s'.heaps ==>
         a in s.heaps && s'.heaps[a].inc == s.heaps[a].inc && s'.heaps[a].handle == s.heaps[a].handle
  }

  lemma MovedTrans(s: State, s1: State, s2: State, t: Tid, th1: Thread, th2: Thread)
    requires AloneMoved(s, s1, t, th1) && AloneMoved(s1, s2, t, th2)
    ensures AloneMoved(s, s2, t, th2)
  {
  }

  lemma {:induction false} RunJoins(s: State, xs: seq<Step>, s1: State, ys: seq<Step>, s2: State)
    requires Run(s, xs, s1) && Run(s1, ys, s2)
    ensures Run(s, xs + ys, s2)
    decreases |xs|
  {
    if xs == [] {
      assert xs + ys == ys;
    } else {
      assert (xs + ys)[1..] == xs[1..] + ys;
      RunJoins(Apply(s, xs[0]), xs[1..], s1, ys, s2);
    }
  }

  lemma OneStep(s: State, step: Step)
    requires Enabled(s, step)
    ensures Run(s, [step], Apply(s, step))
  {
    assert [step][1..] == [];
  }

  // ----- releasing a reference ----------------------------------------------

  function Final(next: Next): Pc {
    match next
    case ToIdle => Idle
    case ToExit => Exiting
    case ToAlive(_, _) => Idle
  }

  /// One reference let go, and the heap given back if it was the last.
  lemma LetGo(s: State, t: Tid) returns (steps: seq<Step>, s': State)
    requires Inv(s) && t < |s.threads| && s.threads[t].pc.Releasing?
    ensures Run(s, steps, s') && Inv(s')
    ensures AloneMoved(s, s', t, s.threads[t].(pc := After(s.threads[t].pc.next)))
  {
    var s1 := Decrement(s, t);
    steps, s' := [Release(t)], s1;
    if s1.threads[t].pc.Freeing? {
      s' := GiveBack(s1, t);
      RunJoins(s, steps, s1, [Free(t)], s');
      steps := steps + [Free(t)];
      MovedTrans(s, s1, s', t, s1.threads[t], s'.threads[t]);
    }
  }

  lemma Decrement(s: State, t: Tid) returns (s': State)
    requires Inv(s) && t < |s.threads| && s.threads[t].pc.Releasing?
    ensures Run(s, [Release(t)], s') && Inv(s') && |s'.threads| == |s.threads|
    ensures AloneMoved(s, s', t, s'.threads[t]) && s'.threads[t].reg == s.threads[t].reg
    ensures s'.threads[t].pc == After(s.threads[t].pc.next)
         || (s'.threads[t].pc.Freeing? && s'.threads[t].pc.next == s.threads[t].pc.next)
  {
    assert ThreadOk(s.heaps, s.threads[t]) && HeapOk(s, s.threads[t].pc.heap);
    s' := Apply(s, Release(t));
    OneStep(s, Release(t));
    InvStep(s, Release(t));
  }

  lemma GiveBack(s: State, t: Tid) returns (s': State)
    requires Inv(s) && t < |s.threads| && s.threads[t].pc.Freeing?
    ensures Run(s, [Free(t)], s') && Inv(s')
    ensures AloneMoved(s, s', t, s.threads[t].(pc := After(s.threads[t].pc.next)))
  {
    assert ThreadOk(s.heaps, s.threads[t]) && HeapOk(s, s.threads[t].pc.heap);
    s' := Apply(s, Free(t));
    OneStep(s, Free(t));
    InvStep(s, Free(t));
  }

  lemma LetGoAll(s: State, t: Tid) returns (steps: seq<Step>, s': State)
    requires Inv(s) && t < |s.threads| && s.threads[t].pc.Releasing?
    ensures Run(s, steps, s') && Inv(s')
    ensures AloneMoved(s, s', t, s.threads[t].(pc := Final(s.threads[t].pc.next)))
  {
    steps, s' := LetGo(s, t);
    if s.threads[t].pc.next.ToAlive? {
      var more, s2 := LetGo(s', t);
      RunJoins(s, steps, s', more, s2);
      MovedTrans(s, s', s2, t, s'.threads[t], s2.threads[t]);
      steps, s' := steps + more, s2;
    }
  }

  // ----- the reference counts then ------------------------------------------

  lemma {:induction false} OthersRefs(reg: seq<Theap>, inc: Inc, k: Inc)
    ensures RegRefs(Others(reg, inc), k) == if k == inc then 0 else RegRefs(reg, k)
  {
    if reg != [] {
      OthersRefs(reg[1..], inc, k);
      var rest := Others(reg[1..], inc);
      if reg[0].inc == inc { assert [] + rest == rest; } else { assert ([reg[0]] + rest)[1..] == rest; }
    }
  }

  /// With nothing of that heap in the list, none is taken out.
  lemma {:induction false} OthersAll(reg: seq<Theap>, inc: Inc)
    requires forall i :: 0 <= i < |reg| ==> reg[i].inc != inc
    ensures Others(reg, inc) == reg
  {
    if reg != [] { OthersAll(reg[1..], inc); }
  }

  lemma {:induction false} OthersWithout(reg: seq<Theap>, i: nat, inc: Inc)
    requires i < |reg| && reg[i].inc == inc && forall j :: 0 <= j < |reg| && j != i ==> reg[j].inc != inc
    ensures Others(reg, inc) == Without(reg, i)
  {
    if i == 0 {
      OthersAll(reg[1..], inc);
      assert Without(reg, 0) == reg[1..];
    } else {
      OthersWithout(reg[1..], i - 1, inc);
      assert Without(reg, i) == [reg[0]] + Without(reg[1..], i - 1);
    }
  }

  /// A list has at most one theap for a heap, the one that the search finds.
  lemma OwnTheap(s: State, t: Tid, a: Addr)
    requires Inv(s) && t < |s.threads| && a in s.heaps
    ensures var reg, inc, i := s.threads[t].reg, s.heaps[a].inc, Find(s.threads[t].reg, a);
      && (i < |reg| ==> reg[i].inc == inc)
      && (forall j :: 0 <= j < |reg| && j != i ==> reg[j].inc != inc)
      && Others(reg, inc) == (if i < |reg| then Without(reg, i) else reg)
      && RegRefs(reg, inc) == if i < |reg| then 1 else 0
  {
    var reg, inc, i := s.threads[t].reg, s.heaps[a].inc, Find(s.threads[t].reg, a);
    assert ThreadOk(s.heaps, s.threads[t]);
    forall j | 0 <= j < |reg| && j != i ensures reg[j].inc != inc {
      assert Points(s.heaps, reg[j].heap, reg[j].inc);
      assert reg[j].heap != a;
    }
    if i < |reg| {
      OthersWithout(reg, i, inc);
      RegWithout(reg, i, inc);
      NoRefs(Without(reg, i), inc);
    } else {
      OthersAll(reg, inc);
      NoRefs(reg, inc);
    }
  }

  /// A heap without its handle and without a reference is gone, once the thread
  /// that lets go has come to rest.
  lemma GoneIfUnreferenced(s: State, inc: Inc)
    requires Inv(s) && inc < |s.frees| && Total(s.threads, inc) == 0
    requires forall a :: a in s.heaps && s.heaps[a].inc == inc ==> !s.heaps[a].handle && !BeingFreed(s.threads, a)
    ensures s.frees[inc] == 1 && !Placed(s.heaps, inc)
  {
    forall a | a in s.heaps ensures s.heaps[a].inc != inc {
      assert HeapOk(s, a);
    }
  }

  // ----- the operations, run to their end -----------------------------------

  /// `theap_for`: afterwards the thread has exactly one theap for the heap, in
  /// front if it is new, and the count has one more for a new one only.
  lemma GetAlone(s: State, t: Tid, a: Addr) returns (steps: seq<Step>, s': State)
    requires Reachable(s) && Enabled(s, Get(t, a))
    ensures Run(s, [Get(t, a)] + steps, s')
    ensures |s'.threads| == |s.threads| && s'.threads == s.threads[t := s'.threads[t]]
    ensures s'.threads[t].pc.Idle? && RegRefs(s'.threads[t].reg, s.heaps[a].inc) == 1
    ensures if RegRefs(s.threads[t].reg, s.heaps[a].inc) == 1 then s' == s
            else
              && s'.threads[t].reg == [Theap(a, s.heaps[a].inc)] + s.threads[t].reg
              && s'.heaps == s.heaps[a := s.heaps[a].(refcount := s.heaps[a].refcount + 1)]
  {
    ReachableInv(s);
    OwnTheap(s, t, a);
    if Find(s.threads[t].reg, a) < |s.threads[t].reg| {
      steps, s' := [], s;
      HasAlone(s, t, a);
    } else {
      steps := [Link(t)];
      s' := MakeAlone(s, t, a);
    }
  }

  lemma HasAlone(s: State, t: Tid, a: Addr)
    requires Enabled(s, Get(t, a)) && Find(s.threads[t].reg, a) < |s.threads[t].reg|
    ensures Run(s, [Get(t, a)] + [], s)
  {
    assert Apply(s, Get(t, a)) == s;
    OneStep(s, Get(t, a));
    assert [Get(t, a)] + [] == [Get(t, a)];
  }

  lemma MakeAlone(s: State, t: Tid, a: Addr) returns (s': State)
    requires Enabled(s, Get(t, a)) && Find(s.threads[t].reg, a) == |s.threads[t].reg|
    requires RegRefs(s.threads[t].reg, s.heaps[a].inc) == 0
    ensures Run(s, [Get(t, a)] + [Link(t)], s')
    ensures s'.threads == s.threads[t := Thread([Theap(a, s.heaps[a].inc)] + s.threads[t].reg, Idle)]
    ensures RegRefs(s'.threads[t].reg, s.heaps[a].inc) == 1
    ensures s'.heaps == s.heaps[a := s.heaps[a].(refcount := s.heaps[a].refcount + 1)]
  {
    var s1 := Apply(s, Get(t, a));
    OneStep(s, Get(t, a));
    s' := Apply(s1, Link(t));
    OneStep(s1, Link(t));
    RunJoins(s, [Get(t, a)], s1, [Link(t)], s');
    assert s'.threads[t].reg[1..] == s.threads[t].reg;
  }

  /// Deleting a heap: the thread's own theap for it leaves the list, the others
  /// keep their order, and the handle's reference goes too; the heap is given
  /// back if no other thread has a theap for it, and else stays for these.
  lemma DeleteAlone(s: State, t: Tid, a: Addr) returns (steps: seq<Step>, s': State)
    requires Reachable(s) && Enabled(s, Delete(t, a))
    ensures Run(s, [Delete(t, a)] + steps, s')
    ensures s'.threads == s.threads[t := Thread(Others(s.threads[t].reg, s.heaps[a].inc), Idle)]
    ensures RegRefs(s'.threads[t].reg, s.heaps[a].inc) == 0
    ensures var inc, left := s.heaps[a].inc, ElsewhereRefs(s, t, s.heaps[a].inc);
      && inc < |s'.frees|
      && (left == 0 ==> s'.frees[inc] == 1 && !Placed(s'.heaps, inc))
      && (left != 0 ==> a in s'.heaps && s'.heaps[a] == Record(inc, left, false) && s'.frees[inc] == 0)
  {
    ReachableInv(s);
    OwnTheap(s, t, a);
    var inc := s.heaps[a].inc;
    var th := Thread(Others(s.threads[t].reg, inc), Idle);
    steps, s' := DeleteRun(s, t, a);
    OthersRefs(s.threads[t].reg, inc, inc);
    TotalUpdate(s.threads, t, th, inc);
    DeletedFate(s, s', t, a, inc);
  }

  lemma DeleteRun(s: State, t: Tid, a: Addr) returns (steps: seq<Step>, s': State)
    requires Inv(s) && Enabled(s, Delete(t, a))
    requires Others(s.threads[t].reg, s.heaps[a].inc)
          == if Find(s.threads[t].reg, a) < |s.threads[t].reg| then Without(s.threads[t].reg, Find(s.threads[t].reg, a))
             else s.threads[t].reg
    ensures Run(s, [Delete(t, a)] + steps, s') && Inv(s') && |s'.frees| == |s.frees|
    ensures s'.threads == s.threads[t := Thread(Others(s.threads[t].reg, s.heaps[a].inc), Idle)]
    ensures forall b :: b in s'.heaps ==>
      b in s.heaps && s'.heaps[b].inc == s.heaps[b].inc && s'.heaps[b].handle == (b != a && s.heaps[b].handle)
  {
    var s1 := DeleteFirst(s, t, a);
    steps, s' := LetGoAll(s1, t);
    RunJoins(s, [Delete(t, a)], s1, steps, s');
    AfterDelete(s, s1, s', t, a, s'.threads[t]);
  }

  lemma AfterDelete(s: State, s1: State, s2: State, t: Tid, a: Addr, th: Thread)
    requires t < |s.threads| == |s1.threads| && a in s.heaps && AloneMoved(s1, s2, t, th)
    requires s1.threads == s.threads[t := s1.threads[t]] && s1.heaps == s.heaps[a := s.heaps[a].(handle := false)]
    ensures s2.threads == s.threads[t := th]
    ensures forall b :: b in s2.heaps ==>
      b in s.heaps && s2.heaps[b].inc == s.heaps[b].inc && s2.heaps[b].handle == (b != a && s.heaps[b].handle)
  {
  }

  lemma DeleteFirst(s: State, t: Tid, a: Addr) returns (s': State)
    requires Inv(s) && Enabled(s, Delete(t, a))
    ensures Run(s, [Delete(t, a)], s') && Inv(s') && s'.frees == s.frees && |s'.threads| == |s.threads|
    ensures s'.threads == s.threads[t := s'.threads[t]] && s'.heaps == s.heaps[a := s.heaps[a].(handle := false)]
    ensures s'.threads[t].pc.Releasing? && Final(s'.threads[t].pc.next) == Idle
    ensures s'.threads[t].reg
         == if Find(s.threads[t].reg, a) < |s.threads[t].reg| then Without(s.threads[t].reg, Find(s.threads[t].reg, a))
            else s.threads[t].reg
  {
    s' := Apply(s, Delete(t, a));
    OneStep(s, Delete(t, a));
    InvStep(s, Delete(t, a));
  }

  lemma DeletedFate(s: State, s': State, t: Tid, a: Addr, inc: Inc)
    requires Inv(s) && Inv(s') && Enabled(s, Delete(t, a)) && inc == s.heaps[a].inc && |s'.frees| == |s.frees|
    requires |s'.threads| == |s.threads| && s'.threads == s.threads[t := s'.threads[t]] && s'.threads[t].pc.Idle?
    requires Total(s'.threads, inc) == ElsewhereRefs(s, t, inc)
    requires forall b :: b in s'.heaps ==>
      b in s.heaps && s'.heaps[b].inc == s.heaps[b].inc && s'.heaps[b].handle == (b != a && s.heaps[b].handle)
    ensures var left := ElsewhereRefs(s, t, inc);
      && inc < |s'.frees|
      && (left == 0 ==> s'.frees[inc] == 1 && !Placed(s'.heaps, inc))
      && (left != 0 ==> a in s'.heaps && s'.heaps[a] == Record(inc, left, false) && s'.frees[inc] == 0)
  {
    assert HeapOk(s, a);
    if ElsewhereRefs(s, t, inc) == 0 {
      forall b | b in s'.heaps && s'.heaps[b].inc == inc ensures !s'.heaps[b].handle && !BeingFreed(s'.threads, b) {
        assert b == a;
        NobodyFrees(s, s', t, a);
      }
      GoneIfUnreferenced(s', inc);
    } else {
      if !Placed(s'.heaps, inc) { NobodyHas(s'.threads, s'.heaps, inc); }
      var b :| b in s'.heaps && s'.heaps[b].inc == inc;
      assert b == a && HeapOk(s', a);
    }
  }

  /// Nobody is giving back a heap whose handle there still was.
  lemma NobodyFrees(s: State, s': State, t: Tid, a: Addr)
    requires Inv(s) && Enabled(s, Delete(t, a))
    requires |s'.threads| == |s.threads| && s'.threads == s.threads[t := s'.threads[t]] && s'.threads[t].pc.Idle?
    ensures !BeingFreed(s'.threads, a)
  {
    assert HeapOk(s, a);
    forall u | 0 <= u < |s'.threads| ensures !IsFreeing(s'.threads[u], a) {
      if u != t { assert s'.threads[u] == s.threads[u] && ThreadOk(s.heaps, s.threads[u]); }
    }
  }

  /// Thread exit: the whole list is torn down.
  lemma ExitAlone(s: State, t: Tid) returns (steps: seq<Step>, s': State)
    requires Reachable(s) && Enabled(s, Exit(t))
    ensures Run(s, [Exit(t)] + steps, s') && Reachable(s')
    ensures AloneMoved(s, s', t, Thread([], Exiting))
    ensures forall inc: Inc :: Total(s'.threads, inc) == ElsewhereRefs(s, t, inc)
  {
    ReachableInv(s);
    var s1 := Apply(s, Exit(t));
    OneStep(s, Exit(t));
    InvStep(s, Exit(t));
    steps, s' := TearDown(s1, t);
    RunJoins(s, [Exit(t)], s1, steps, s');
    MovedTrans(s, s1, s', t, s1.threads[t], s'.threads[t]);
    ReachableLater(s, [Exit(t)] + steps, s');
    forall inc: Inc ensures Total(s'.threads, inc) == ElsewhereRefs(s, t, inc) {
      TotalUpdate(s.threads, t, Thread([], Exiting), inc);
    }
  }

  lemma ReachableLater(s: State, steps: seq<Step>, s': State)
    requires Reachable(s) && Run(s, steps, s')
    ensures Reachable(s')
  {
    var s0: State, before: seq<Step> :| Init(s0) && Run(s0, before, s);
    RunJoins(s0, before, s, steps, s');
  }

  lemma {:induction false} TearDown(s: State, t: Tid) returns (steps: seq<Step>, s': State)
    requires Inv(s) && t < |s.threads| && s.threads[t].pc.Exiting?
    ensures Run(s, steps, s') && Inv(s') && AloneMoved(s, s', t, Thread([], Exiting))
    decreases |s.threads[t].reg|
  {
    if s.threads[t].reg == [] {
      steps, s' := [], s;
      assert s.threads[t] == Thread([], Exiting);
    } else {
      var s1 := Apply(s, ExitNext(t));
      OneStep(s, ExitNext(t));
      InvStep(s, ExitNext(t));
      var xs, s2 := LetGoAll(s1, t);
      RunJoins(s, [ExitNext(t)], s1, xs, s2);
      MovedTrans(s, s1, s2, t, s1.threads[t], s2.threads[t]);
      var ys, s3 := TearDown(s2, t);
      RunJoins(s, [ExitNext(t)] + xs, s2, ys, s3);
      MovedTrans(s, s2, s3, t, s2.threads[t], s3.threads[t]);
      steps, s' := [ExitNext(t)] + xs + ys, s3;
    }
  }

  /// A heap that only the exiting thread still referred to is given back.
  lemma ExitFreesLast(s: State, t: Tid, a: Addr) returns (steps: seq<Step>, s': State)
    requires Reachable(s) && Enabled(s, Exit(t)) && a in s.heaps && !s.heaps[a].handle
    requires RegRefs(s.threads[t].reg, s.heaps[a].inc) == 1 && ElsewhereRefs(s, t, s.heaps[a].inc) == 0
    ensures Run(s, [Exit(t)] + steps, s') && |s'.threads| == |s.threads| && s'.threads[t] == Thread([], Exiting)
    ensures s.heaps[a].inc < |s'.frees| && s'.frees[s.heaps[a].inc] == 1
  {
    var inc := s.heaps[a].inc;
    ReachableInv(s);
    assert HeapOk(s, a);
    steps, s' := ExitAlone(s, t);
    ReachableInv(s');
    forall b | b in s'.heaps && s'.heaps[b].inc == inc ensures !s'.heaps[b].handle && !BeingFreed(s'.threads, b) {
      assert b == a;
      forall u | 0 <= u < |s'.threads| ensures !IsFreeing(s'.threads[u], b) {
        if u != t { assert s'.threads[u] == s.threads[u] && ThreadOk(s.heaps, s.threads[u]); }
      }
    }
    GoneIfUnreferenced(s', inc);
  }
}
