/// Zeroed allocation is zero, and interior pointers keep their page flagged.

module PageZero {
  import opened PageProtocol
  import opened PageConservation
  import opened PageOwnership

  /// Every block that can be served next, or is not threaded yet, is zero past
  /// its first word.
  ghost predicate Clean(s: State) {
    forall x :: x in s.mem.dirty && x.off >= LINK_SIZE ==> x.block !in s.q.free && x.block < s.q.capacity
  }

  /// The page is in a thread's queue, or on its way out of it.
  predicate TheapHeld(p: Pc) {
    match p
    case Own => true
    case Capture(ret) => !ret.ToMtTest? && !ret.ToMtRetest?
    case Splice(chain, ret) => !ret.ToMtTest? && !ret.ToMtRetest?
    case Exit(_) => true
    case _ => false
  }

  /// Nothing is ever threaded on a huge page before a block of it is recycled.
  ghost predicate ZeroOk(s: State) {
    && (s.cfg.huge ==> s.q.capacity >= s.cfg.reserved)
    && forall t :: 0 <= t < |s.pc| && TheapHeld(s.pc[t]) && s.mem.freeIsZero ==>
         Clean(s) && (s.pc[t].Splice? ==> s.pc[t].chain == []) && (s.cfg.huge ==> s.q.free == [])
  }

  /// Interior user pointers belong to live blocks and keep the page's flag set.
  ghost predicate InteriorOk(s: State) {
    && (forall b :: b in s.inside ==> b in s.q.live)
    && (s.inside != {} ==> s.sh.interior)
  }

  lemma LiveIsElsewhere(s: State, b: Block)
    requires Conserved(s) && b in s.q.live
    ensures b !in s.q.free && b < s.q.capacity && s.q.live[b] == 1
  {
    assert Places(s, b) == if b < s.q.capacity then 1 else 0;
    CountMember(s.q.free, b);
  }

  /// Only the holder's own step can turn the claim on or use it.
  lemma ZeroAt(s: State, s': State, t: Tid)
    requires Ownership(s) && t < |s.pc| && Holds(s.pc[t]) && |s'.pc| == |s.pc|
    requires s'.pc == s.pc[t := s'.pc[t]]
    requires s'.cfg == s.cfg && (s.cfg.huge ==> s'.q.capacity >= s.cfg.reserved)
    requires TheapHeld(s'.pc[t]) && s'.mem.freeIsZero ==>
               Clean(s') && (s'.pc[t].Splice? ==> s'.pc[t].chain == []) && (s'.cfg.huge ==> s'.q.free == [])
    ensures ZeroOk(s')
  {
    HolderIs(s, t);
    forall u | 0 <= u < |s'.pc| && u != t ensures !TheapHeld(s'.pc[u]) {
      assert s'.pc[u] == s.pc[u];
    }
  }

  lemma ZeroSplice(s: State, t: Tid, chain: seq<Block>, ret: Return)
    requires Inv(s) && ZeroOk(s) && t < |s.pc| && s.pc[t] == Splice(chain, ret)
    ensures ZeroOk(DoSplice(s, t, chain, ret))
  {
    ZeroAt(s, DoSplice(s, t, chain, ret), t);
  }

  lemma ZeroExit(s: State, t: Tid, e: ExitPc, ok: bool)
    requires Inv(s) && ZeroOk(s) && t < |s.pc| && s.pc[t] == Exit(e)
    ensures ZeroOk(DoExit(s, t, e, ok))
  {
    ZeroAt(s, DoExit(s, t, e, ok), t);
  }

  lemma ZeroMt(s: State, t: Tid, m: MtPc, ok: bool)
    requires Inv(s) && ZeroOk(s) && t < |s.pc| && s.pc[t] == Mt(m)
    requires m.Partly? ==> m.pushed in s.q.xfree
    ensures ZeroOk(DoMt(s, t, m, ok))
  {
    assert !TheapHeld(DoMt(s, t, m, ok).pc[t]);
    ZeroAt(s, DoMt(s, t, m, ok), t);
  }

  lemma ZeroPush(s: State, t: Tid, b: Block)
    requires ZeroOk(s) && t < |s.pc| && s.pc[t] == Pushing(b)
    ensures ZeroOk(DoPush(s, t, b))
  {
    var s' := DoPush(s, t, b);
    forall u | 0 <= u < |s'.pc| && TheapHeld(s'.pc[u]) ensures s'.pc[u] == s.pc[u] {
    }
  }

  lemma ZeroAdvance(s: State, t: Tid, ok: bool)
    requires Inv(s) && ZeroOk(s) && CanAdvance(s, t)
    ensures ZeroOk(DoAdvance(s, t, ok))
  {
    match s.pc[t]
    case Pushing(b) => ZeroPush(s, t, b);
    case Capture(ret) => ZeroAt(s, DoCapture(s, t, ret), t);
    case Splice(chain, ret) => ZeroSplice(s, t, chain, ret);
    case Exit(e) => ZeroExit(s, t, e, ok);
    case Reclaiming(r) => ZeroAt(s, DoReclaim(s, t, r), t);
    case Mt(m) => ZeroMt(s, t, m, ok);
  }

  lemma ZeroAlloc(s: State, t: Tid, request: Request)
    requires Inv(s) && ZeroOk(s) && Enabled(s, Alloc(t, request))
    ensures ZeroOk(DoAlloc(s, request))
  {
    ZeroAt(s, DoAlloc(s, request), t);
  }

  lemma ZeroExtend(s: State, t: Tid)
    requires Inv(s) && ZeroOk(s) && Enabled(s, Extend(t))
    ensures ZeroOk(Apply(s, Extend(t)))
  {
    ZeroAt(s, Apply(s, Extend(t)), t);
  }

  lemma ZeroStep(s: State, step: Step)
    requires Inv(s) && ZeroOk(s) && Enabled(s, step)
    ensures ZeroOk(Apply(s, step))
  {
    var s' := Apply(s, step);
    match step
    case Alloc(t, request) => ZeroAlloc(s, t, request);
    case Extend(t) => ZeroExtend(s, t);
    case Write(b, _) => LiveIsElsewhere(s, b);
    case StartCollect(t) => ZeroAt(s, s', t);
    case Retire(t) => ZeroAt(s, s', t);
    case StartExit(t) => ZeroAt(s, s', t);
    case Advance(t, ok) => ZeroAdvance(s, t, ok);
    case MarkInterior(t, b) =>
    case FreeLocal(t, b) =>
    case FreeCross(t, b) =>
    case Reclaim(t) =>
  }

  /// What no action of a thread in mid-operation touches.
  predicate SameUsers(s: State, s': State) {
    s'.inside == s.inside && s'.q.live == s.q.live && s'.sh.interior == s.sh.interior
  }

  lemma UsersExit(s: State, t: Tid, e: ExitPc, ok: bool)
    requires t < |s.pc|
    ensures SameUsers(s, DoExit(s, t, e, ok))
  {
  }

  lemma UsersMt(s: State, t: Tid, m: MtPc, ok: bool)
    requires t < |s.pc| && (m.Partly? ==> m.pushed in s.q.xfree)
    ensures SameUsers(s, DoMt(s, t, m, ok))
  {
  }

  lemma UsersAdvance(s: State, t: Tid, ok: bool)
    requires CanAdvance(s, t)
    ensures SameUsers(s, DoAdvance(s, t, ok))
  {
    match s.pc[t]
    case Pushing(b) => assert SameUsers(s, DoPush(s, t, b));
    case Capture(ret) => assert SameUsers(s, DoCapture(s, t, ret));
    case Splice(chain, ret) => assert SameUsers(s, DoSplice(s, t, chain, ret));
    case Exit(e) => UsersExit(s, t, e, ok);
    case Reclaiming(r) => assert SameUsers(s, DoReclaim(s, t, r));
    case Mt(m) => UsersMt(s, t, m, ok);
  }

  predicate Frees(step: Step, b: Block) { (step.FreeLocal? || step.FreeCross?) && step.b == b }

  lemma InteriorStep(s: State, step: Step)
    requires Inv(s) && InteriorOk(s) && Enabled(s, step)
    ensures InteriorOk(Apply(s, step))
    ensures s.sh.interior ==> Apply(s, step).sh.interior
    ensures forall b: Block :: b in Apply(s, step).inside <==>
              (b in s.inside && !Frees(step, b)) || (step.MarkInterior? && step.b == b)
  {
    var s' := Apply(s, step);
    match step
    case FreeLocal(t, b) => LiveIsElsewhere(s, b);
    case FreeCross(t, b) => LiveIsElsewhere(s, b);
    case Alloc(_, _) =>
    case Extend(_) =>
    case Write(_, _) =>
    case StartCollect(_) =>
    case Retire(_) =>
    case StartExit(_) =>
    case MarkInterior(_, _) =>
    case Reclaim(_) =>
    case Advance(t, ok) => UsersAdvance(s, t, ok);
  }

  ghost predicate FullInv(s: State) { Inv(s) && ZeroOk(s) && InteriorOk(s) }

  lemma {:induction false} FullInvRun(s: State, steps: seq<Step>, s': State)
    requires FullInv(s) && Run(s, steps, s')
    ensures FullInv(s')
    decreases |steps|
  {
    if steps != [] {
      InvStep(s, steps[0]);
      ZeroStep(s, steps[0]);
      InteriorStep(s, steps[0]);
      FullInvRun(Apply(s, steps[0]), steps[1..], s');
    }
  }

  lemma FullInvInit(s: State, t: Tid)
    requires Init(s, t) || InitHuge(s, t)
    ensures FullInv(s)
  {
    InvInit(s, t);
  }
}
