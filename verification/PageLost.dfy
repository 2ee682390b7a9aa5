/// When a page can no longer be used: it was not given back, and no action of
/// any thread will ever find it. `set_unowned`, which unlike `try_unown` does
/// not look at the stack, is the one step that does this.

module PageLost {
  import opened PageProtocol
  import opened PageConservation
  import opened PageOwnership
  import opened PageZero
  import opened PageTheorems
  import opened PageTermination
  import opened PageAlone
  import StaleRest

  /// The slices were not given back, and nothing can happen to the page any more.
  ghost predicate Lost(s: State) {
    s.sh.releases == 0 && forall step :: !Enabled(s, step)
  }

  /// No thread but `t` is at anything with the page, and the program holds no block.
  ghost predicate Deserted(s: State, t: Tid) {
    |s.q.live| == 0 && forall u :: 0 <= u < |s.pc| && u != t ==> s.pc[u].Out?
  }

  // ----- what is known of a page about to be let go -------------------------

  /// Nothing to serve, and nothing deferred.
  predicate Packed(s: State) { IsFullNow(s) && s.q.local == [] }

  /// What holds at a program counter, beyond the ownership invariant.
  predicate Prepared(s: State, p: Pc) {
    match p
    case Capture(ret) => !ret.ToOwn? && !ret.ToExitTest? ==> s.q.capacity > 0
    case Splice(_, ret) => !ret.ToOwn? && !ret.ToExitTest? ==> s.q.capacity > 0
    case Exit(e) =>
      && (!e.Test? ==> s.q.capacity > 0) && (e.Retest? ==> s.q.local == [])
      && (e.StampFull? || (e.Unown? && s.sh.stamp.Abandoned?) ==> Packed(s))
    case Mt(m) =>
      && s.q.capacity > 0 && (m.IsFullAgain? ==> s.q.local == [])
      && (m.TryUnown? && s.sh.stamp.Abandoned? ==> Packed(s))
    case _ => true
  }

  ghost predicate AllPrepared(s: State) {
    && |s.pc| > 0
    && forall t :: 0 <= t < |s.pc| ==> Prepared(s, s.pc[t])
  }

  /// While a holder is in the middle of an operation the others leave the
  /// owner's lists and the stamp alone.
  lemma OthersLeave(s: State, t: Tid, step: Step)
    requires Inv(s) && t < |s.pc| && Holds(s.pc[t]) && !s.pc[t].Own? && Enabled(s, step) && !By(step, t)
    ensures var s' := Apply(s, step);
            && s'.q == s.q.(xfree := s'.q.xfree, live := s'.q.live)
            && s'.cfg == s.cfg && s'.sh.stamp == s.sh.stamp && |s'.pc| == |s.pc| && s'.pc[t] == s.pc[t]
  {
    HolderIs(s, t);
    if step.FreeLocal? { OwnFreeLocal(s, step.t, step.b); }
    if step.Advance? {
      assert !Holds(s.pc[step.t]);
      assert s.pc[step.t].Pushing?;
    }
  }

  lemma CarriedInPlaces(s: State, u: Tid)
    requires u < |s.pc| && Carried(s.pc[u]) != []
    ensures Places(s, Carried(s.pc[u])[0]) > 0
  {
    var b := Carried(s.pc[u])[0];
    CarriedMember(s.pc, u, b);
    CountMember(Carried(s.pc[u]), b);
  }

  /// Blocks in use have been threaded.
  lemma UsedIsThreaded(s: State, t: Tid)
    requires Conserved(s) && t < |s.pc|
    ensures s.q.used != 0 || s.pc[t].Pushing? ==> s.q.capacity > 0
  {
    if s.q.capacity == 0 {
      forall u: Tid | u < |s.pc| ensures Carried(s.pc[u]) == [] {
        if Carried(s.pc[u]) != [] {
          CarriedInPlaces(s, u);
          assert false;
        }
      }
      NothingCarriedAtFirst(s.pc, 0);
      assert s.q.live == multiset{} by {
        forall b: Block ensures b !in s.q.live { assert Places(s, b) == 0; }
      }
      if s.q.xfree != [] {
        assert Places(s, s.q.xfree[0]) == 0;
        CountMember(s.q.xfree, s.q.xfree[0]);
      }
    }
  }

  lemma PreparedExit(s: State, t: Tid, e: ExitPc, ok: bool)
    requires Inv(s) && t < |s.pc| && s.pc[t] == Exit(e) && Prepared(s, s.pc[t])
    ensures var s' := DoExit(s, t, e, ok); Prepared(s', s'.pc[t])
  {
    UsedIsThreaded(s, t);
    assert PcOk(s.sh, s.q, t, s.pc[t]);
  }

  lemma PreparedMt(s: State, t: Tid, m: MtPc, ok: bool)
    requires Inv(s) && t < |s.pc| && s.pc[t] == Mt(m) && Prepared(s, s.pc[t])
    requires m.Partly? ==> m.pushed in s.q.xfree
    ensures var s' := DoMt(s, t, m, ok); Prepared(s', s'.pc[t])
  {
    assert PcOk(s.sh, s.q, t, s.pc[t]);
  }

  lemma PreparedAdvance(s: State, t: Tid, ok: bool)
    requires Inv(s) && CanAdvance(s, t) && Prepared(s, s.pc[t])
    ensures var s' := DoAdvance(s, t, ok); |s'.pc| == |s.pc| && Prepared(s', s'.pc[t])
  {
    match s.pc[t]
    case Pushing(_) => UsedIsThreaded(s, t);
    case Capture(_) =>
    case Splice(_, _) =>
    case Exit(e) => PreparedExit(s, t, e, ok);
    case Reclaiming(_) =>
    case Mt(m) => PreparedMt(s, t, m, ok);
  }

  lemma PreparedOther(s: State, u: Tid, step: Step)
    requires Inv(s) && u < |s.pc| && Prepared(s, s.pc[u]) && Enabled(s, step) && !By(step, u)
    ensures var s' := Apply(s, step); |s'.pc| == |s.pc| && Prepared(s', s'.pc[u])
  {
    if Holds(s.pc[u]) && !s.pc[u].Own? {
      OthersLeave(s, u, step);
    } else {
      OthersPc(s, u, step);
    }
  }

  lemma OthersPc(s: State, u: Tid, step: Step)
    requires u < |s.pc| && Enabled(s, step) && !By(step, u)
    ensures |Apply(s, step).pc| == |s.pc| && Apply(s, step).pc[u] == s.pc[u]
  {
  }

  /// A thread that starts something, or stays as it is, relies on nothing yet.
  lemma PreparedFirst(s: State, step: Step)
    requires Enabled(s, step) && !step.Write? && !step.Advance?
    ensures var s' := Apply(s, step); |s'.pc| == |s.pc| && Prepared(s', s'.pc[step.t])
  {
  }

  lemma PreparedStep(s: State, step: Step)
    requires Inv(s) && AllPrepared(s) && Enabled(s, step)
    ensures AllPrepared(Apply(s, step))
  {
    OneMore(s, step);
    forall u: Tid | u < |s.pc| ensures Prepared(Apply(s, step), Apply(s, step).pc[u]) {
      if !By(step, u) {
        PreparedOther(s, u, step);
      } else if step.Advance? {
        PreparedAdvance(s, u, step.registryOk);
      } else {
        PreparedFirst(s, step);
      }
    }
  }

  lemma OneMore(s: State, step: Step)
    requires Enabled(s, step)
    ensures |Apply(s, step).pc| == |s.pc|
  {
  }

  lemma {:induction false} PreparedRun(s: State, steps: seq<Step>, s': State)
    requires FullInv(s) && AllPrepared(s) && Run(s, steps, s')
    ensures AllPrepared(s')
    decreases |steps|
  {
    if steps != [] {
      PreparedStep(s, steps[0]);
      FullInvRun(s, [steps[0]], Apply(s, steps[0]));
      PreparedRun(Apply(s, steps[0]), steps[1..], s');
    }
  }

  lemma ReachablePrepared(s: State)
    requires Reachable(s)
    ensures FullInv(s) && AllPrepared(s)
  {
    var s0: State, t: Tid, steps: seq<Step> :| (Init(s0, t) || InitHuge(s0, t)) && Run(s0, steps, s);
    FullInvInit(s0, t);
    PreparedRun(s0, steps, s);
    ReachableInv(s);
  }

  // ----- lost pages ---------------------------------------------------------

  ghost predicate Forgotten(s: State, t: Tid) {
    && s.sh.releases == 0 && !s.sh.owned && !s.sh.mapped
    && t < |s.pc| && s.pc[t].Out? && Deserted(s, t)
  }

  /// A page is lost iff it is unowned, nobody can find it in the registry, and
  /// no block of it is left whose free would claim it. Every block still counted
  /// as used is then one that was freed.
  lemma LostIff(s: State, t: Tid)
    requires Reachable(s) && t < |s.pc|
    ensures Lost(s) <==> Forgotten(s, t)
    ensures Lost(s) ==> s.q.used == |s.q.xfree|
  {
    ReachableInv(s);
    LostThen(s, t);
  }

  lemma LostThen(s: State, t: Tid)
    requires FullInv(s) && t < |s.pc|
    ensures Lost(s) <==> Forgotten(s, t)
    ensures Lost(s) ==> s.q.used == |s.q.xfree|
  {
    if Lost(s) {
      forall u: Tid | u < |s.pc| ensures s.pc[u].Out? {
        assert !Enabled(s, StartCollect(u)) && !Enabled(s, Advance(u, true));
        assert PcOk(s.sh, s.q, u, s.pc[u]);
      }
      if |s.q.live| != 0 {
        var b :| b in s.q.live;
        assert Enabled(s, Write(b, {}));
      }
      assert !Enabled(s, Reclaim(t));
      NothingCarriedAtFirst(s.pc, 0);
    }
    if Forgotten(s, t) { NothingEnabled(s, t); }
  }

  lemma NothingEnabled(s: State, t: Tid)
    requires Forgotten(s, t)
    ensures forall step :: !Enabled(s, step)
  {
  }

  // ----- how a page gets lost -----------------------------------------------

  /// Ownership is given up.
  predicate LetsGo(s: State, step: Step) {
    && step.Advance? && step.t < |s.pc|
    && (s.pc[step.t] == Exit(Unown) || (s.pc[step.t] == Mt(TryUnown) && s.q.xfree == []))
  }

  lemma DesertedToo(s: State, s': State, t: Tid)
    requires t < |s.pc| == |s'.pc| && s'.pc == s.pc[t := s'.pc[t]] && s'.q.live == s.q.live
    ensures Deserted(s', t) <==> Deserted(s, t)
  {
    forall u: Tid | u < |s.pc| && u != t ensures s'.pc[u] == s.pc[u] {
    }
  }

  lemma ForgottenMt(s: State, t: Tid, m: MtPc, ok: bool)
    requires FullInv(s) && t < |s.pc| && s.pc[t] == Mt(m) && (m.Partly? ==> m.pushed in s.q.xfree)
    ensures Forgotten(DoMt(s, t, m, ok), t) <==>
      m.TryUnown? && s.q.xfree == [] && !s.sh.mapped && Deserted(s, t)
  {
    DesertedToo(s, DoMt(s, t, m, ok), t);
    assert PcOk(s.sh, s.q, t, s.pc[t]);
  }

  lemma ForgottenExit(s: State, t: Tid, e: ExitPc, ok: bool)
    requires FullInv(s) && t < |s.pc| && s.pc[t] == Exit(e)
    ensures Forgotten(DoExit(s, t, e, ok), t) <==> e.Unown? && !s.sh.mapped && Deserted(s, t)
  {
    DesertedToo(s, DoExit(s, t, e, ok), t);
    assert PcOk(s.sh, s.q, t, s.pc[t]);
  }

  lemma ForgottenAdvance(s: State, t: Tid, ok: bool)
    requires FullInv(s) && CanAdvance(s, t)
    ensures Forgotten(DoAdvance(s, t, ok), t) <==>
      LetsGo(s, Advance(t, ok)) && !s.sh.mapped && Deserted(s, t)
  {
    match s.pc[t]
    case Exit(e) => ForgottenExit(s, t, e, ok);
    case Mt(m) => ForgottenMt(s, t, m, ok);
    case _ =>
  }

  lemma NotForgotten(s: State, step: Step)
    requires FullInv(s) && Enabled(s, step) && !step.Write? && !step.Advance?
    ensures !Forgotten(Apply(s, step), step.t)
  {
    if step.FreeLocal? { OwnFreeLocal(s, step.t, step.b); }
  }

  /// A page is lost by being let go unregistered while nobody has a block of it.
  lemma LostByLettingGo(s: State, step: Step)
    requires Reachable(s) && Enabled(s, step)
    ensures Lost(Apply(s, step)) <==> LetsGo(s, step) && !s.sh.mapped && Deserted(s, step.t)
  {
    ReachablePrepared(s);
    FullInvStep(s, step);
    OneMore(s, step);
    match step
    case Write(b, bytes) => LostThen(Apply(s, step), 0);
    case Advance(t, ok) =>
      LostThen(Apply(s, step), t);
      ForgottenAdvance(s, t, ok);
    case _ =>
      LostThen(Apply(s, step), step.t);
      NotForgotten(s, step);
  }

  /// With memory for the registry, a page is lost exactly by `set_unowned`, on a
  /// page stamped as full of which by then every block left live was freed: their
  /// frees queued them, which `try_unown` would have seen.
  lemma LosesIff(s: State, step: Step)
    requires Reachable(s) && Enabled(s, step) && !s.sh.stranded
    ensures Lost(Apply(s, step)) <==>
      && step.Advance? && step.t < |s.pc| && s.pc[step.t] == Exit(Unown)
      && s.sh.stamp == Abandoned && Deserted(s, step.t)
    ensures Lost(Apply(s, step)) ==> s.q.xfree != []
  {
    ReachablePrepared(s);
    LostByLettingGo(s, step);
    if LetsGo(s, step) {
      assert Prepared(s, s.pc[step.t]);
      assert PcOk(s.sh, s.q, step.t, s.pc[step.t]);
      if Deserted(s, step.t) && Packed(s) { AllQueued(s, step.t); }
    }
  }

  /// A full page that nobody has a block of has them all on its stack.
  lemma AllQueued(s: State, t: Tid)
    requires Conserved(s) && t < |s.pc| && Deserted(s, t) && Packed(s) && s.q.capacity > 0
    requires Carried(s.pc[t]) == []
    ensures s.q.xfree != []
  {
    assert Places(s, 0) == 1;
    if CarriedCount(s.pc, 0) > 0 {
      var u := SomeoneCarries(s.pc, 0);
      assert false;
    }
  }

  // ----- a page that is lost ------------------------------------------------

  ghost predicate From(s0: State, s: State) { exists steps :: Run(s0, steps, s) }

  lemma OneStep(s0: State, s: State, step: Step) returns (s': State)
    requires From(s0, s) && Enabled(s, step)
    ensures s' == Apply(s, step) && From(s0, s')
  {
    s' := Apply(s, step);
    var steps :| Run(s0, steps, s);
    LastStep(s0, steps, s, step);
  }

  lemma LastStep(s0: State, steps: seq<Step>, s: State, step: Step)
    requires Run(s0, steps, s) && Enabled(s, step)
    ensures Run(s0, steps + ([step] + []), Apply(s, step))
  {
    RunFrom(s, step, [], Apply(s, step));
    RunJoins(s0, steps, s, [step] + [], Apply(s, step));
  }

  /// A page of one block, just carved by thread 0 of two.
  function Start(bs: nat): State { StaleRest.OneBlock(bs).(pc := [Own, Out]) }

  /// The page's one block in use, its thread about to collect before it exits.
  lemma AboutToExit(bs: nat) returns (s: State)
    ensures From(Start(bs), s) && s.cfg == Config(1, 1, bs, false) && s.pc == [Capture(ToExitTest), Out]
    ensures s.q == Lists([], [], [], 1, 1, multiset{0}) && s.sh == Shared(true, Owner(0), false, false, false, 0)
  {
    assert Upto(0, 1) == [0];
    assert Run(Start(bs), [], Start(bs));
    s := OneStep(Start(bs), Start(bs), Extend(0));
    assert s.q == Lists([0], [], [], 0, 1, multiset{});
    s := OneStep(Start(bs), s, Alloc(0, Plain));
    s := OneStep(Start(bs), s, StartExit(0));
  }

  /// It finds the page full.
  lemma FoundFull(bs: nat) returns (s: State)
    ensures From(Start(bs), s) && s.cfg == Config(1, 1, bs, false) && s.pc == [Exit(Decide), Out]
    ensures s.q == Lists([], [], [], 1, 1, multiset{0}) && s.sh == Shared(true, Owner(0), false, false, false, 0)
  {
    s := AboutToExit(bs);
    s := OneStep(Start(bs), s, Advance(0, true));
    s := OneStep(Start(bs), s, Advance(0, true));
    assert s.pc == [Exit(Test), Out];
    s := OneStep(Start(bs), s, Advance(0, true));
  }

  /// It stamps the page so.
  lemma StampedFull(bs: nat) returns (s: State)
    ensures From(Start(bs), s) && s.cfg == Config(1, 1, bs, false) && s.pc == [Exit(Unown), Out]
    ensures s.q == Lists([], [], [], 1, 1, multiset{0}) && s.sh == Shared(true, Abandoned, false, false, false, 0)
  {
    s := FoundFull(bs);
    s := OneStep(Start(bs), s, Advance(0, true));
    assert s.pc == [Capture(ToExitRetest), Out];
    s := OneStep(Start(bs), s, Advance(0, true));
    s := OneStep(Start(bs), s, Advance(0, true));
    assert s.pc == [Exit(Retest), Out];
    s := OneStep(Start(bs), s, Advance(0, true));
    s := OneStep(Start(bs), s, Advance(0, true));
  }

  /// For every block size, a run after which a page is lost: before its owner
  /// lets go, another thread frees the last block.
  lemma LostPage(bs: nat) returns (s: State)
    ensures Reachable(s) && s.cfg.blockSize == bs && Lost(s) && s.q.xfree == [0] && s.q.used == 1
  {
    s := AllFreed(bs);
    StartsReachable(bs, s);
    LostIff(s, 0);
  }

  lemma StartsReachable(bs: nat, s: State)
    requires From(Start(bs), s)
    ensures Reachable(s)
  {
    var steps :| Run(Start(bs), steps, s);
    assert Init(Start(bs), 0);
  }

  lemma AllFreed(bs: nat) returns (s: State)
    ensures From(Start(bs), s) && s.cfg == Config(1, 1, bs, false) && s.pc == [Out, Out]
    ensures s.q == Lists([], [], [0], 1, 1, multiset{}) && s.sh == Shared(false, Abandoned, false, false, false, 0)
  {
    s := StampedFull(bs);
    s := OneStep(Start(bs), s, FreeCross(1, 0));
    s := OneStep(Start(bs), s, Advance(1, true));
    assert s.pc == [Exit(Unown), Out];
    s := OneStep(Start(bs), s, Advance(0, true));
  }
}
