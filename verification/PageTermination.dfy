/// free_try_collect_mt ends whatever the other threads do.

module PageTermination {
  import opened PageProtocol
  import opened PageConservation
  import opened PageOwnership

  /// The thread claimed the page with a free and has not let go of it.
  predicate InMt(p: Pc) {
    p.Mt? || (p.Capture? && (p.ret.ToMtTest? || p.ret.ToMtRetest?))
          || (p.Splice? && (p.ret.ToMtTest? || p.ret.ToMtRetest?))
  }

  /// `used` as it will be once the blocks already known to be queued are counted.
  function Expected(s: State, t: Tid): int
    requires t < |s.pc|
  {
    match s.pc[t]
    case Capture(ToMtTest) => s.q.used - 1
    case Splice(chain, _) => s.q.used - |chain|
    case _ => s.q.used
  }

  function Phase(p: Pc): nat {
    match p
    case Capture(ret) => if ret.ToMtTest? then 16 else 9
    case Splice(chain, ret) => (if ret.ToMtTest? then 14 else 7) + |chain|
    case Mt(m) => (
      match m
      case Partly(_) => 18
      case IsEmpty => 12
      case IsFull => 10
      case IsFullAgain => 6
      case Reregister => 5
      case Restamp => 4
      case TryUnown => 3
      case Unmap => 2
      case Release => 1)
    case _ => 0
  }

  /// Bounds the actions a claiming thread still has to take.
  function Rank(s: State, t: Tid): int
    requires t < |s.pc|
  {
    20 * Expected(s, t) + Phase(s.pc[t])
  }

  predicate By(step: Step, t: Tid) { !step.Write? && step.t == t }

  lemma RankBounded(s: State, t: Tid)
    requires Inv(s) && t < |s.pc| && InMt(s.pc[t])
    ensures 0 <= Expected(s, t) <= s.q.used
    ensures 0 < Rank(s, t)
  {
    assert PcOk(s.sh, s.q, t, s.pc[t]);
    CarriedMember(s.pc, t, 0);
  }

  /// A claimer always has a next action.
  lemma MtNeverStuck(s: State, t: Tid, ok: bool)
    requires Inv(s) && t < |s.pc| && InMt(s.pc[t])
    ensures Enabled(s, Advance(t, ok))
  {
    assert PcOk(s.sh, s.q, t, s.pc[t]);
  }

  /// Nobody can allocate from, extend, or locally free into a claimed page.
  lemma NoAllocWhileClaimed(s: State, t: Tid, step: Step)
    requires Inv(s) && t < |s.pc| && InMt(s.pc[t]) && Enabled(s, step)
    ensures !step.Alloc? && !step.Extend? && !step.FreeLocal? && !step.Reclaim?
  {
    HolderIs(s, t);
    if step.FreeLocal? {
      OwnFreeLocal(s, step.t, step.b);
    }
  }

  /// Other threads' steps leave the claimer's rank alone.
  lemma OthersKeepRank(s: State, t: Tid, step: Step)
    requires Inv(s) && t < |s.pc| && InMt(s.pc[t]) && Enabled(s, step) && !By(step, t)
    ensures var s' := Apply(s, step);
            t < |s'.pc| && s'.pc[t] == s.pc[t] && s'.q.used == s.q.used
  {
    HolderIs(s, t);
    NoAllocWhileClaimed(s, t, step);
    if step.Advance? {
      assert !Holds(s.pc[step.t]);
      assert s.pc[step.t].Pushing?;
    }
  }

  lemma MtAdvanceShrinks(s: State, t: Tid, m: MtPc, ok: bool)
    requires Inv(s) && t < |s.pc| && s.pc[t] == Mt(m)
    requires m.Partly? ==> m.pushed in s.q.xfree
    ensures var s' := DoMt(s, t, m, ok); InMt(s'.pc[t]) ==>
              && Rank(s', t) < Rank(s, t) && Expected(s', t) <= Expected(s, t)
              && (m.TryUnown? ==> Expected(s', t) < Expected(s, t))
  {
    assert PcOk(s.sh, s.q, t, s.pc[t]);
  }

  lemma StepShrinks(s: State, t: Tid, step: Step)
    requires Inv(s) && t < |s.pc| && InMt(s.pc[t]) && Enabled(s, step) && By(step, t)
    ensures var s' := Apply(s, step); InMt(s'.pc[t]) ==>
              && Rank(s', t) < Rank(s, t) && Expected(s', t) <= Expected(s, t)
              && (s.pc[t] == Mt(TryUnown) ==> Expected(s', t) < Expected(s, t))
  {
    HolderIs(s, t);
    assert PcOk(s.sh, s.q, t, s.pc[t]);
    assert step.Advance?;
    match s.pc[t]
    case Capture(ret) =>
    case Splice(chain, ret) =>
    case Mt(m) => MtAdvanceShrinks(s, t, m, step.registryOk);
  }

  predicate FailsToLetGo(s: State, t: Tid, step: Step)
    requires Enabled(s, step)
  {
    && By(step, t) && t < |s.pc| && s.pc[t] == Mt(TryUnown)
    && t < |Apply(s, step).pc| && InMt(Apply(s, step).pc[t])
  }

  lemma AnyStep(s: State, t: Tid, step: Step)
    requires Inv(s) && t < |s.pc| && InMt(s.pc[t]) && Enabled(s, step)
    ensures var s' := Apply(s, step);
      && t < |s'.pc|
      && (!By(step, t) ==> InMt(s'.pc[t]))
      && (InMt(s'.pc[t]) ==>
            && Rank(s', t) + (if By(step, t) then 1 else 0) <= Rank(s, t)
            && Expected(s', t) + (if FailsToLetGo(s, t, step) then 1 else 0) <= Expected(s, t))
  {
    if By(step, t) {
      NoAllocWhileClaimed(s, t, step);
      StepShrinks(s, t, step);
    } else {
      OthersKeepRank(s, t, step);
    }
  }

  // ----- over whole runs ----------------------------------------------------

  /// `t` is still working on its claim before every one of `steps`.
  ghost predicate StaysClaimed(s: State, steps: seq<Step>, t: Tid)
    decreases |steps|
  {
    steps == [] ||
    (t < |s.pc| && InMt(s.pc[t]) && Enabled(s, steps[0]) && StaysClaimed(Apply(s, steps[0]), steps[1..], t))
  }

  /// How many of `steps` are actions of `t`.
  ghost function ActionsOf(steps: seq<Step>, t: Tid): nat {
    if steps == [] then 0 else (if By(steps[0], t) then 1 else 0) + ActionsOf(steps[1..], t)
  }

  /// How often `t` fails to let go of the page and has to collect again.
  ghost function ExtraRounds(s: State, steps: seq<Step>, t: Tid): nat
    decreases |steps|
  {
    if steps == [] || !Enabled(s, steps[0]) then 0
    else (if FailsToLetGo(s, t, steps[0]) then 1 else 0) + ExtraRounds(Apply(s, steps[0]), steps[1..], t)
  }

  /// Under any interference the claimer takes a bounded number of actions
  /// (`RankAtClaim`) and at most `used` extra rounds, counting `used` at the claim.
  lemma {:induction false} MtTerminates(s: State, steps: seq<Step>, t: Tid)
    requires Inv(s) && t < |s.pc| && InMt(s.pc[t]) && StaysClaimed(s, steps, t)
    ensures ActionsOf(steps, t) <= Rank(s, t)
    ensures ExtraRounds(s, steps, t) <= Expected(s, t) <= s.q.used
    decreases |steps|
  {
    RankBounded(s, t);
    if steps != [] {
      var s' := Apply(s, steps[0]);
      AnyStep(s, t, steps[0]);
      InvStep(s, steps[0]);
      if InMt(s'.pc[t]) {
        MtTerminates(s', steps[1..], t);
      } else {
        assert steps[1..] == [];
      }
    }
  }

  lemma RankAtClaim(s: State, t: Tid)
    requires Inv(s) && t < |s.pc| && InMt(s.pc[t]) && !s.pc[t].Splice?
    ensures Rank(s, t) <= 20 * s.q.used + 18
  {
  }
}
