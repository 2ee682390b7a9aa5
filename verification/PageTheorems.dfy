/// What the page machine guarantees over every run, from carve to release.

module PageTheorems {
  import opened PageProtocol
  import opened PageConservation
  import opened PageOwnership
  import opened PageZero

  /// Some run of some number of threads, from a freshly carved page, ends in `s`.
  ghost predicate Reachable(s: State) {
    exists s0: State, t: Tid, steps: seq<Step> :: (Init(s0, t) || InitHuge(s0, t)) && Run(s0, steps, s)
  }

  lemma ReachableInv(s: State)
    requires Reachable(s)
    ensures FullInv(s)
  {
    var s0: State, t: Tid, steps: seq<Step> :| (Init(s0, t) || InitHuge(s0, t)) && Run(s0, steps, s);
    FullInvInit(s0, t);
    FullInvRun(s0, steps, s);
  }

  lemma FullInvStep(s: State, step: Step)
    requires FullInv(s) && Enabled(s, step)
    ensures FullInv(Apply(s, step))
  {
    assert Run(Apply(s, step), [], Apply(s, step));
    RunFrom(s, step, [], Apply(s, step));
    FullInvRun(s, [step] + [], Apply(s, step));
  }

  // ----- conservation -------------------------------------------------------

  predicate CarriedBy(s: State, b: Block, t: Tid) { t < |s.pc| && b in Carried(s.pc[t]) }

  /// Every threaded block is in exactly one place, no other block is anywhere,
  /// and `used` is exact.
  lemma BlocksConserved(s: State)
    requires Reachable(s)
    ensures s.q.capacity <= s.cfg.reserved
    ensures forall b: Block ::
      Count(s.q.free, b) + Count(s.q.local, b) + Count(s.q.xfree, b) + s.q.live[b] + CarriedCount(s.pc, b)
      == if b < s.q.capacity then 1 else 0
    ensures s.q.used == |s.q.live| + |s.q.xfree| + CarriedSize(s.pc)
  {
    ReachableInv(s);
    forall b: Block ensures
      Count(s.q.free, b) + Count(s.q.local, b) + Count(s.q.xfree, b) + s.q.live[b] + CarriedCount(s.pc, b)
      == if b < s.q.capacity then 1 else 0
    {
      assert Places(s, b) == if b < s.q.capacity then 1 else 0;
    }
  }

  /// The block an allocation hands out was with nobody else.
  lemma NeverHandedOutTwice(s: State, t: Tid, request: Request)
    requires Reachable(s) && Enabled(s, Alloc(t, request))
    ensures var b := s.q.free[0];
      && b < s.cfg.reserved
      && b !in s.q.live && b !in s.q.xfree && b !in s.q.local && b !in s.q.free[1..]
      && (forall u: Tid :: !CarriedBy(s, b, u))
      && DoAlloc(s, request).q.live == s.q.live + multiset{b}
  {
    ReachableInv(s);
    var b := s.q.free[0];
    assert Places(s, b) == if b < s.q.capacity then 1 else 0;
    CountMember(s.q.free[1..], b);
    CountMember(s.q.local, b);
    CountMember(s.q.xfree, b);
    forall u: Tid | u < |s.pc| ensures !CarriedBy(s, b, u) {
      CarriedMember(s.pc, u, b);
      CountMember(Carried(s.pc[u]), b);
    }
  }

  // ----- ownership ----------------------------------------------------------

  /// Until release, the token is set iff exactly one thread acts as holder.
  lemma TokenIffOneHolder(s: State)
    requires Reachable(s) && s.sh.releases == 0
    ensures s.sh.owned <==> exists t: Tid :: OnlyHolder(s, t)
    ensures !s.sh.owned <==> NoHolder(s)
  {
    ReachableInv(s);
    if s.sh.owned {
      var t: Tid :| OnlyHolder(s, t);
      assert Holds(s.pc[t]);
    }
  }

  /// A stamped thread id always names the one holder, and a thread in whose
  /// queue the page sits is always the one stamped.
  lemma StampIsHolder(s: State, t: Tid)
    requires Reachable(s) && t < |s.pc| && s.sh.releases == 0
    ensures s.sh.stamp == Owner(t) ==> OnlyHolder(s, t)
    ensures s.pc[t].Own? ==> s.sh.stamp == Owner(t)
  {
    ReachableInv(s);
    if s.sh.stamp == Owner(t) { StampNamesHolder(s, t); }
    assert PcOk(s.sh, s.q, t, s.pc[t]);
  }

  /// A free dispatched on the stamp alone takes the owner path iff the page is
  /// in the caller's own queue.
  lemma LocalFreeIsOwners(s: State, t: Tid, b: Block)
    requires Reachable(s) && t < |s.pc| && AtRest(s.pc[t]) && b in s.q.live
    ensures Enabled(s, FreeLocal(t, b)) <==> s.pc[t].Own?
    ensures Enabled(s, FreeCross(t, b)) <==> s.pc[t].Out?
  {
    ReachableInv(s);
    NotGone(s, b);
    StampIsHolder(s, t);
  }

  // ----- release ------------------------------------------------------------

  /// The slices go back at most once; then no block is live, queued or in
  /// flight, the registry has no entry, and nothing can happen any more.
  lemma ReleaseIsFinal(s: State)
    requires Reachable(s)
    ensures s.sh.releases <= 1
    ensures s.sh.releases == 1 ==> Gone(s) && |s.q.live| == 0 && s.q.used == 0
    ensures s.sh.releases == 1 ==> forall step :: !Enabled(s, step)
  {
    ReachableInv(s);
    if s.sh.releases == 1 {
      forall b: Block ensures b !in s.q.live {
        if b in s.q.live { NotGone(s, b); }
      }
      forall u | 0 <= u < |s.pc| ensures Carried(s.pc[u]) == [] {
      }
      NothingCarriedAtFirst(s.pc, 0);
    }
  }

  /// Only the holder gives the slices back.
  lemma OnlyHolderReleases(s: State, step: Step)
    requires Reachable(s) && Enabled(s, step) && Apply(s, step).sh.releases != s.sh.releases
    ensures !step.Write? && OnlyHolder(s, step.t) && s.q.used == 0 && |s.q.live| == 0
  {
    ReachableInv(s);
    match step
    case Retire(t) => HolderIs(s, t);
    case Advance(t, ok) =>
      assert PcOk(s.sh, s.q, t, s.pc[t]);
      AdvanceReleases(s, t, ok);
      HolderIs(s, t);
  }

  lemma ExitReleases(s: State, t: Tid, e: ExitPc, ok: bool)
    requires t < |s.pc|
    ensures DoExit(s, t, e, ok).sh.releases != s.sh.releases ==> e.Test? && s.q.used == 0
  {
  }

  lemma MtReleases(s: State, t: Tid, m: MtPc, ok: bool)
    requires t < |s.pc| && (m.Partly? ==> m.pushed in s.q.xfree)
    ensures DoMt(s, t, m, ok).sh.releases != s.sh.releases ==> m.Release?
  {
  }

  lemma AdvanceReleases(s: State, t: Tid, ok: bool)
    requires CanAdvance(s, t) && DoAdvance(s, t, ok).sh.releases != s.sh.releases
    ensures (s.pc[t] == Exit(Test) && s.q.used == 0) || s.pc[t] == Mt(Release)
  {
    match s.pc[t]
    case Pushing(b) =>
    case Capture(ret) =>
    case Splice(chain, ret) =>
    case Exit(e) => ExitReleases(s, t, e, ok);
    case Reclaiming(r) =>
    case Mt(m) => MtReleases(s, t, m, ok);
  }

  // ----- registry -----------------------------------------------------------

  /// While nobody owns the page, its registry bit is set iff it is stamped as
  /// registered, unless the registry had no memory when it was to be set.
  lemma UnownedRegistryAgrees(s: State)
    requires Reachable(s) && !s.sh.owned
    ensures s.sh.mapped <==> s.sh.stamp.AbandonedMapped? && !s.sh.stranded
    ensures !s.sh.stamp.Owner?
  {
    ReachableInv(s);
  }

  /// A page about to be registered is not registered.
  lemma RegisteredOnce(s: State, t: Tid)
    requires Reachable(s) && t < |s.pc| && s.sh.releases == 0
    requires s.pc[t] == Exit(Register) || s.pc[t] == Mt(Reregister)
    ensures !s.sh.mapped
  {
    ReachableInv(s);
    assert PcOk(s.sh, s.q, t, s.pc[t]);
  }

  /// Only the holder changes the registry bit or the stamp.
  lemma OnlyHolderTouchesRegistry(s: State, step: Step)
    requires Reachable(s) && Enabled(s, step)
    requires Apply(s, step).sh.mapped != s.sh.mapped || Apply(s, step).sh.stamp != s.sh.stamp
    ensures step.Advance? && OnlyHolder(s, step.t)
  {
    ReachableInv(s);
    match step
    case Advance(t, ok) => if Holds(s.pc[t]) { HolderIs(s, t); }
  }

  // ----- contents -----------------------------------------------------------

  /// Every byte of block `b` is zero.
  ghost predicate BlockIsZero(s: State, b: Block) {
    forall off: nat :: off < s.cfg.blockSize ==> Byte(b, off) !in s.mem.dirty
  }

  /// A zeroed allocation returns as many zero bytes as were asked for. Above the
  /// limit its whole block is zero; below, the bytes past the request are as the
  /// block's last user left them.
  lemma ZeroedIsZero(s: State, t: Tid, size: nat)
    requires Reachable(s) && Enabled(s, Alloc(t, Zeroed(size)))
    ensures var s' := Apply(s, Alloc(t, Zeroed(size)));
      var b := s.q.free[0];
      && b in s'.q.live
      && (forall off: nat :: off < size ==> Byte(b, off) !in s'.mem.dirty)
      && (size > ZERO_VIA_PAGE_MIN ==> BlockIsZero(s', b))
      && (size <= ZERO_VIA_PAGE_MIN ==>
            forall off: nat :: off >= size ==> (Byte(b, off) in s'.mem.dirty <==> Byte(b, off) in s.mem.dirty))
  {
    ReachableInv(s);
    assert TheapHeld(s.pc[t]);
  }

  /// A block stays marked from the making of the pointer to the free of the
  /// block, and while there is such a block the page is flagged.
  lemma InteriorStaysFlagged(s: State, step: Step)
    requires Reachable(s) && Enabled(s, step)
    ensures s.inside != {} ==> s.sh.interior
    ensures s.sh.interior ==> Apply(s, step).sh.interior
    ensures forall b: Block :: b in Apply(s, step).inside <==>
              (b in s.inside && !Frees(step, b)) || (step.MarkInterior? && step.b == b)
  {
    ReachableInv(s);
    InteriorStep(s, step);
  }
}
