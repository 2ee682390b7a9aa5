/// Exclusive ownership, registry agreement and single release of a page.

module PageOwnership {
  import opened PageProtocol
  import opened PageConservation

  // ----- what each program counter may rely on ------------------------------

  predicate OwnerOk(sh: Shared, t: Tid) {
    sh.stamp == Owner(t) && !sh.mapped && !sh.stranded
  }

  /// No thread id is stamped, and the registry bit is set iff the page is
  /// stamped as registered (unless the registry had no memory for it).
  predicate Agreement(sh: Shared) {
    && !sh.stamp.Owner?
    && (sh.mapped <==> sh.stamp.AbandonedMapped? && !sh.stranded)
    && (sh.stranded ==> sh.stamp.AbandonedMapped?)
  }

  predicate ReturnOk(sh: Shared, t: Tid, ret: Return) {
    if ret.ToMtTest? || ret.ToMtRetest? then Agreement(sh) else OwnerOk(sh, t)
  }

  predicate ExitOk(sh: Shared, t: Tid, e: ExitPc) {
    match e
    case StampMapped => sh.stamp == Owner(t) && sh.mapped != sh.stranded
    case Unown => Agreement(sh)
    case _ => OwnerOk(sh, t)
  }

  predicate ReclaimOk(sh: Shared, t: Tid, r: ReclaimPc) {
    match r
    case Claimed => sh.stamp.AbandonedMapped? && sh.mapped && !sh.stranded
    case Cleared => sh.stamp.AbandonedMapped? && !sh.mapped && !sh.stranded
    case Stamped => OwnerOk(sh, t)
  }

  predicate MtOk(sh: Shared, q: Lists, m: MtPc) {
    match m
    case Partly(b) => Agreement(sh) && b in q.xfree
    case Unmap => Agreement(sh) && q.used == 0
    case Release => !sh.stamp.Owner? && !sh.mapped && q.used == 0
    case Reregister => sh.stamp.Abandoned? && !sh.mapped && !sh.stranded
    case Restamp => sh.stamp.Abandoned? && sh.mapped != sh.stranded
    case _ => Agreement(sh)
  }

  predicate PcOk(sh: Shared, q: Lists, t: Tid, p: Pc) {
    Holds(p) ==>
      && sh.owned && sh.releases == 0
      && match p
         case Own => OwnerOk(sh, t)
         case Capture(ret) => ReturnOk(sh, t, ret) && (ret.ToMtTest? ==> q.xfree != [])
         case Splice(_, ret) => ReturnOk(sh, t, ret)
         case Exit(e) => ExitOk(sh, t, e)
         case Reclaiming(r) => ReclaimOk(sh, t, r)
         case Mt(m) => MtOk(sh, q, m)
  }

  /// Nothing anywhere refers to the page any more.
  ghost predicate Gone(s: State) {
    && |s.q.live| == 0 && s.q.xfree == [] && !s.sh.mapped && s.sh.owned
    && forall u :: 0 <= u < |s.pc| ==> s.pc[u].Out?
  }

  ghost predicate NoHolder(s: State) {
    forall u :: 0 <= u < |s.pc| ==> !Holds(s.pc[u])
  }

  ghost predicate OnlyHolder(s: State, t: Tid) {
    && t < |s.pc| && Holds(s.pc[t])
    && forall u :: 0 <= u < |s.pc| && u != t ==> !Holds(s.pc[u])
  }

  ghost predicate Ownership(s: State) {
    && (forall t :: 0 <= t < |s.pc| ==> PcOk(s.sh, s.q, t, s.pc[t]))
    && (!s.sh.owned ==> NoHolder(s) && Agreement(s.sh) && s.sh.releases == 0)
    && (s.sh.owned && s.sh.releases == 0 ==> exists t: Tid :: OnlyHolder(s, t))
    && s.sh.releases <= 1
    && (s.sh.releases == 1 ==> Gone(s))
  }

  ghost predicate Inv(s: State) { Conserved(s) && Ownership(s) }

  // ----- the ways a step can change who holds the page ----------------------

  lemma HolderIs(s: State, t: Tid)
    requires Ownership(s) && t < |s.pc| && Holds(s.pc[t])
    ensures OnlyHolder(s, t) && s.sh.owned && s.sh.releases == 0
  {
    assert PcOk(s.sh, s.q, t, s.pc[t]);
  }

  /// A stamped thread id names the holder.
  lemma StampNamesHolder(s: State, t: Tid)
    requires Ownership(s) && s.sh.stamp == Owner(t) && s.sh.releases == 0
    ensures OnlyHolder(s, t)
  {
    var u: Tid :| OnlyHolder(s, u);
    assert PcOk(s.sh, s.q, u, s.pc[u]);
  }

  lemma HolderMoves(s: State, s': State, t: Tid, p: Pc)
    requires Ownership(s) && t < |s.pc| && Holds(s.pc[t])
    requires s'.pc == s.pc[t := p] && Holds(p) && PcOk(s'.sh, s'.q, t, p)
    ensures Ownership(s')
  {
    HolderIs(s, t);
    assert OnlyHolder(s', t);
  }

  lemma HolderLeaves(s: State, s': State, t: Tid)
    requires Ownership(s) && t < |s.pc| && Holds(s.pc[t])
    requires s'.pc == s.pc[t := Out]
    requires !s'.sh.owned && Agreement(s'.sh) && s'.sh.releases == 0
    ensures Ownership(s')
  {
    HolderIs(s, t);
  }

  lemma {:induction false} NothingCarried(pc: seq<Pc>, t: Tid)
    requires CarriedSize(pc) == 0 && t < |pc|
    ensures !pc[t].Pushing?
  {
    if t > 0 {
      NothingCarried(pc[1..], t - 1);
    }
  }

  /// The slices go back only when no block is live, queued or in flight.
  lemma HolderReleases(s: State, t: Tid)
    requires Inv(s) && t < |s.pc| && Holds(s.pc[t])
    requires s.q.used == 0 && !s.sh.mapped
    ensures Ownership(DoRelease(s, t)) && Gone(DoRelease(s, t))
  {
    HolderIs(s, t);
    var s' := DoRelease(s, t);
    forall u | 0 <= u < |s'.pc| ensures s'.pc[u].Out? {
      NothingCarried(s.pc, u);
    }
  }

  lemma Claim(s: State, s': State, t: Tid, p: Pc)
    requires Ownership(s) && t < |s.pc| && !s.sh.owned
    requires s'.pc == s.pc[t := p] && Holds(p) && PcOk(s'.sh, s'.q, t, p)
    ensures Ownership(s')
  {
    assert OnlyHolder(s', t);
  }

  /// A bystander may only push: the shared words stay, the stack grows.
  lemma Bystander(s: State, s': State, t: Tid, p: Pc)
    requires Ownership(s) && t < |s.pc| && !Holds(s.pc[t]) && s.sh.releases == 0
    requires s'.pc == s.pc[t := p] && !Holds(p)
    requires s'.sh == s.sh && s'.q.used == s.q.used
    requires s'.q.xfree == s.q.xfree || exists b :: s'.q.xfree == [b] + s.q.xfree
    ensures Ownership(s')
  {
    forall u | 0 <= u < |s'.pc| ensures PcOk(s'.sh, s'.q, u, s'.pc[u]) {
      assert PcOk(s.sh, s.q, u, s.pc[u]);
    }
    if s.sh.owned {
      var h: Tid :| OnlyHolder(s, h);
      assert s'.pc[h] == s.pc[h];
      assert OnlyHolder(s', h);
    }
  }

  // ----- preservation -------------------------------------------------------

  lemma OwnCollect(s: State, t: Tid, ret: Return)
    requires Ownership(s) && t < |s.pc| && s.pc[t] == Capture(ret)
    ensures Ownership(DoCapture(s, t, ret))
  {
    assert PcOk(s.sh, s.q, t, s.pc[t]);
    HolderMoves(s, DoCapture(s, t, ret), t, Splice(s.q.xfree, ret));
  }

  lemma OwnSplice(s: State, t: Tid, chain: seq<Block>, ret: Return)
    requires Ownership(s) && t < |s.pc| && s.pc[t] == Splice(chain, ret)
    ensures Ownership(DoSplice(s, t, chain, ret))
  {
    assert PcOk(s.sh, s.q, t, s.pc[t]);
    HolderMoves(s, DoSplice(s, t, chain, ret), t, if chain != [] then Splice(chain[1..], ret) else Resume(ret));
  }

  lemma OwnPush(s: State, t: Tid, b: Block)
    requires Ownership(s) && t < |s.pc| && s.pc[t] == Pushing(b)
    ensures Ownership(DoPush(s, t, b))
  {
    var s' := DoPush(s, t, b);
    assert s'.q.xfree == [b] + s.q.xfree && s'.q.xfree[0] == b;
    assert s.sh.releases == 0;
    if s.sh.owned {
      Bystander(s, s', t, Out);
    } else {
      Claim(s, s', t, s'.pc[t]);
    }
  }

  lemma OwnExit(s: State, t: Tid, e: ExitPc, ok: bool)
    requires Inv(s) && t < |s.pc| && s.pc[t] == Exit(e)
    ensures Ownership(DoExit(s, t, e, ok))
  {
    var s' := DoExit(s, t, e, ok);
    assert PcOk(s.sh, s.q, t, s.pc[t]);
    if e.Unown? {
      HolderLeaves(s, s', t);
    } else if e.Test? && s.q.used == 0 {
      HolderReleases(s, t);
    } else {
      HolderMoves(s, s', t, s'.pc[t]);
    }
  }

  lemma OwnReclaim(s: State, t: Tid, r: ReclaimPc)
    requires Ownership(s) && t < |s.pc| && s.pc[t] == Reclaiming(r)
    ensures Ownership(DoReclaim(s, t, r))
  {
    var s' := DoReclaim(s, t, r);
    assert PcOk(s.sh, s.q, t, s.pc[t]);
    HolderMoves(s, s', t, s'.pc[t]);
  }

  lemma OneLeftIsQueued(s: State, t: Tid, b: Block)
    requires t < |s.pc| && s.pc[t] == Mt(Partly(b)) && b in s.q.xfree
    ensures b in DoPartly(s, t, b).q.xfree
  {
    TakeBelowCount(s.q, b, b);
  }

  lemma OwnMt(s: State, t: Tid, m: MtPc, ok: bool)
    requires Inv(s) && t < |s.pc| && s.pc[t] == Mt(m)
    requires m.Partly? ==> m.pushed in s.q.xfree
    ensures Ownership(DoMt(s, t, m, ok))
  {
    var s' := DoMt(s, t, m, ok);
    assert PcOk(s.sh, s.q, t, s.pc[t]);
    match m
    case Partly(b) =>
      OneLeftIsQueued(s, t, b);
      HolderMoves(s, s', t, s'.pc[t]);
    case Release => HolderReleases(s, t);
    case TryUnown =>
      if s.q.xfree == [] { HolderLeaves(s, s', t); } else { HolderMoves(s, s', t, s'.pc[t]); }
    case IsEmpty => HolderMoves(s, s', t, s'.pc[t]);
    case Unmap => HolderMoves(s, s', t, s'.pc[t]);
    case IsFull => HolderMoves(s, s', t, s'.pc[t]);
    case IsFullAgain => HolderMoves(s, s', t, s'.pc[t]);
    case Reregister => HolderMoves(s, s', t, s'.pc[t]);
    case Restamp => HolderMoves(s, s', t, s'.pc[t]);
  }

  lemma OwnAdvance(s: State, t: Tid, ok: bool)
    requires Inv(s) && CanAdvance(s, t)
    ensures Ownership(DoAdvance(s, t, ok))
  {
    match s.pc[t]
    case Pushing(b) => OwnPush(s, t, b);
    case Capture(ret) => OwnCollect(s, t, ret);
    case Splice(chain, ret) => OwnSplice(s, t, chain, ret);
    case Exit(e) => OwnExit(s, t, e, ok);
    case Reclaiming(r) => OwnReclaim(s, t, r);
    case Mt(m) => OwnMt(s, t, m, ok);
  }

  lemma OwnAlloc(s: State, t: Tid, request: Request)
    requires Ownership(s) && Enabled(s, Alloc(t, request))
    ensures Ownership(DoAlloc(s, request))
  {
    assert PcOk(s.sh, s.q, t, s.pc[t]);
    HolderMoves(s, DoAlloc(s, request), t, Own);
  }

  lemma OwnExtend(s: State, t: Tid)
    requires Ownership(s) && Enabled(s, Extend(t)) && s.q.capacity <= s.cfg.reserved
    ensures Ownership(Apply(s, Extend(t)))
  {
    assert PcOk(s.sh, s.q, t, s.pc[t]);
    HolderMoves(s, Apply(s, Extend(t)), t, Own);
  }

  lemma OwnMark(s: State, t: Tid, b: Block)
    requires Ownership(s) && Enabled(s, MarkInterior(t, b))
    ensures Ownership(Apply(s, MarkInterior(t, b)))
  {
    assert PcOk(s.sh, s.q, t, s.pc[t]);
    HolderMoves(s, Apply(s, MarkInterior(t, b)), t, Own);
  }

  lemma NotGone(s: State, b: Block)
    requires Ownership(s) && b in s.q.live
    ensures s.sh.releases == 0
  {
  }

  lemma OwnFreeLocal(s: State, t: Tid, b: Block)
    requires Ownership(s) && Enabled(s, FreeLocal(t, b))
    ensures s.pc[t].Own?
    ensures Ownership(Apply(s, FreeLocal(t, b)))
  {
    NotGone(s, b);
    StampNamesHolder(s, t);
    assert PcOk(s.sh, s.q, t, s.pc[t]);
    HolderMoves(s, Apply(s, FreeLocal(t, b)), t, Own);
  }

  lemma OwnFreeCross(s: State, t: Tid, b: Block)
    requires Ownership(s) && Enabled(s, FreeCross(t, b))
    ensures s.pc[t].Out?
    ensures Ownership(Apply(s, FreeCross(t, b)))
  {
    NotGone(s, b);
    assert PcOk(s.sh, s.q, t, s.pc[t]);
    Bystander(s, Apply(s, FreeCross(t, b)), t, Pushing(b));
  }

  lemma OwnStart(s: State, t: Tid, ret: Return)
    requires Ownership(s) && t < |s.pc| && s.pc[t].Own? && (ret.ToOwn? || ret.ToExitTest?)
    ensures Ownership(At(s, t, Capture(ret)))
  {
    assert PcOk(s.sh, s.q, t, s.pc[t]);
    HolderMoves(s, At(s, t, Capture(ret)), t, Capture(ret));
  }

  lemma OwnStep(s: State, step: Step)
    requires Inv(s) && Enabled(s, step)
    ensures Ownership(Apply(s, step))
  {
    match step
    case Alloc(t, request) => OwnAlloc(s, t, request);
    case MarkInterior(t, b) => OwnMark(s, t, b);
    case Write(b, _) => NotGone(s, b); OwnWrite(s, Apply(s, step));
    case FreeLocal(t, b) => OwnFreeLocal(s, t, b);
    case FreeCross(t, b) => OwnFreeCross(s, t, b);
    case Extend(t) => OwnExtend(s, t);
    case StartCollect(t) => OwnStart(s, t, ToOwn);
    case StartExit(t) => OwnStart(s, t, ToExitTest);
    case Retire(t) => assert PcOk(s.sh, s.q, t, s.pc[t]); HolderReleases(s, t);
    case Reclaim(t) => Claim(s, Apply(s, step), t, Reclaiming(Claimed));
    case Advance(t, ok) => OwnAdvance(s, t, ok);
  }

  lemma OwnWrite(s: State, s': State)
    requires Ownership(s) && s'.sh == s.sh && s'.q == s.q && s'.pc == s.pc
    ensures Ownership(s')
  {
    if s.sh.owned && s.sh.releases == 0 {
      var h: Tid :| OnlyHolder(s, h);
      assert OnlyHolder(s', h);
    }
  }

  /// The whole invariant is inductive.
  lemma InvStep(s: State, step: Step)
    requires Inv(s) && Enabled(s, step)
    ensures Inv(Apply(s, step))
  {
    ConservedStep(s, step);
    OwnStep(s, step);
  }

  lemma {:induction false} NothingCarriedAtFirst(pc: seq<Pc>, b: Block)
    requires forall u :: 0 <= u < |pc| ==> Carried(pc[u]) == []
    ensures CarriedCount(pc, b) == 0 && CarriedSize(pc) == 0
  {
    if pc != [] {
      NothingCarriedAtFirst(pc[1..], b);
    }
  }

  lemma InvInit(s: State, t: Tid)
    requires Init(s, t) || InitHuge(s, t)
    ensures Inv(s)
  {
    forall b: Block ensures CarriedCount(s.pc, b) == 0 {
      NothingCarriedAtFirst(s.pc, b);
    }
    NothingCarriedAtFirst(s.pc, 0);
    assert OnlyHolder(s, t);
  }
}
