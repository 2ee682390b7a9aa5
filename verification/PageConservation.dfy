/// Block conservation: in every interleaving, every block the page has threaded
/// so far is in exactly one place, and `used` counts exactly the blocks that are
/// not back on an owner list.

module PageConservation {
  import opened PageProtocol

  function Count(q: seq<Block>, b: Block): nat {
    if q == [] then 0 else (if q[0] == b then 1 else 0) + Count(q[1..], b)
  }

  /// Occurrences of `b` in variables that only one thread can see.
  function CarriedCount(pc: seq<Pc>, b: Block): nat {
    if pc == [] then 0 else Count(Carried(pc[0]), b) + CarriedCount(pc[1..], b)
  }

  function CarriedSize(pc: seq<Pc>): nat {
    if pc == [] then 0 else |Carried(pc[0])| + CarriedSize(pc[1..])
  }

  /// The number of times `b` is on a list or with the program.
  function ListCount(q: Lists, b: Block): nat {
    Count(q.free, b) + Count(q.local, b) + Count(q.xfree, b) + q.live[b]
  }

  /// The number of places block `b` is in.
  function Places(s: State, b: Block): nat {
    ListCount(s.q, b) + CarriedCount(s.pc, b)
  }

  /// Blocks handed out and not yet counted back.
  function Outstanding(s: State): nat {
    |s.q.live| + |s.q.xfree| + CarriedSize(s.pc)
  }

  ghost predicate Conserved(s: State) {
    && s.q.capacity <= s.cfg.reserved
    && s.cfg.batch >= 1
    && (forall b: Block :: Places(s, b) == if b < s.q.capacity then 1 else 0)
    && s.q.used == Outstanding(s)
  }

  // ----- counting lemmas ----------------------------------------------------

  lemma {:induction false} CarriedUpdate(pc: seq<Pc>, t: Tid, p: Pc, b: Block)
    requires t < |pc|
    ensures CarriedCount(pc[t := p], b) + Count(Carried(pc[t]), b) == CarriedCount(pc, b) + Count(Carried(p), b)
    ensures CarriedSize(pc[t := p]) + |Carried(pc[t])| == CarriedSize(pc) + |Carried(p)|
  {
    var q := pc[t := p];
    if t == 0 {
      assert q[1..] == pc[1..];
    } else {
      CarriedUpdate(pc[1..], t - 1, p, b);
      assert q[1..] == pc[1..][t - 1 := p];
      assert q[0] == pc[0];
    }
  }

  lemma {:induction false} CarriedMember(pc: seq<Pc>, t: Tid, b: Block)
    requires t < |pc|
    ensures Count(Carried(pc[t]), b) <= CarriedCount(pc, b)
    ensures |Carried(pc[t])| <= CarriedSize(pc)
  {
    if t > 0 {
      CarriedMember(pc[1..], t - 1, b);
    }
  }

  lemma CountCons(x: Block, q: seq<Block>, b: Block)
    ensures Count([x] + q, b) == (if x == b then 1 else 0) + Count(q, b)
  {
    assert ([x] + q)[1..] == q;
  }

  lemma {:induction false} CountConcat(p: seq<Block>, q: seq<Block>, b: Block)
    ensures Count(p + q, b) == Count(p, b) + Count(q, b)
  {
    if p == [] {
      assert p + q == q;
    } else {
      CountConcat(p[1..], q, b);
      assert (p + q)[1..] == p[1..] + q;
    }
  }

  lemma CountSplit(q: seq<Block>, i: nat, b: Block)
    requires i <= |q|
    ensures Count(q, b) == Count(q[..i], b) + Count(q[i..], b)
  {
    CountConcat(q[..i], q[i..], b);
    assert q == q[..i] + q[i..];
  }

  lemma {:induction false} CountUpto(lo: nat, hi: nat, b: Block)
    requires lo <= hi
    ensures Count(Upto(lo, hi), b) == if lo <= b < hi then 1 else 0
    decreases hi - lo
  {
    if lo < hi {
      CountUpto(lo + 1, hi, b);
      CountCons(lo, Upto(lo + 1, hi), b);
    }
  }

  lemma {:induction false} CountMember(q: seq<Block>, b: Block)
    ensures Count(q, b) > 0 <==> b in q
  {
    if q != [] {
      CountMember(q[1..], b);
    }
  }

  // ----- what each list operation does to the counts -------------------------

  lemma PopCount(q: Lists, b: Block)
    requires q.free != []
    ensures ListCount(Pop(q), b) == ListCount(q, b)
  {
  }

  lemma GrowCount(c: Config, q: Lists, b: Block)
    requires q.capacity <= c.reserved
    ensures ListCount(Grow(c, q), b) ==
            ListCount(q, b) + if q.capacity <= b < Grow(c, q).capacity then 1 else 0
  {
    var carved := Upto(q.capacity, q.capacity + BatchSize(c, q));
    CountUpto(q.capacity, q.capacity + BatchSize(c, q), b);
    CountConcat(carved, q.free, b);
  }

  lemma AdoptCount(q: Lists, b: Block)
    ensures ListCount(Adopt(q), b) == ListCount(q, b)
  {
    CountConcat(q.local, q.free, b);
  }

  lemma TakeBelowCount(q: Lists, x: Block, b: Block)
    requires x in q.xfree
    ensures ListCount(TakeBelow(q, x), b) == ListCount(q, b)
    ensures |TakeBelow(q, x).xfree| + |Below(q, x)| == |q.xfree|
    ensures x in TakeBelow(q, x).xfree
  {
    var i := IndexOf(q.xfree, x);
    CountSplit(q.xfree, i + 1, b);
    CountConcat(Below(q, x), q.local, b);
    assert q.xfree[..i + 1][i] == x;
  }

  // ----- steps --------------------------------------------------------------

  /// What every step keeps: each block's count, and `used` against the blocks
  /// outstanding.
  ghost predicate Balanced(s: State, s': State, b: Block) {
    && Places(s', b) == Places(s, b)
    && Outstanding(s') - s'.q.used == Outstanding(s) - s.q.used
    && s'.q.capacity == s.q.capacity
    && s'.cfg == s.cfg
  }

  /// A step that leaves the lists alone and carries nothing new is balanced.
  lemma IdleStep(s: State, s': State, t: Tid, b: Block)
    requires t < |s.pc| && t < |s'.pc| && s'.pc == s.pc[t := s'.pc[t]]
    requires Carried(s.pc[t]) == Carried(s'.pc[t])
    requires s'.q == s.q && s'.cfg == s.cfg
    ensures Balanced(s, s', b)
  {
    CarriedUpdate(s.pc, t, s'.pc[t], b);
  }

  lemma PushStep(s: State, t: Tid, x: Block, b: Block)
    requires t < |s.pc| && s.pc[t] == Pushing(x)
    ensures Balanced(s, DoPush(s, t, x), b)
  {
    CarriedUpdate(s.pc, t, DoPush(s, t, x).pc[t], b);
    CountCons(x, s.q.xfree, b);
  }

  lemma CaptureStep(s: State, t: Tid, ret: Return, b: Block)
    requires t < |s.pc| && s.pc[t] == Capture(ret)
    ensures Balanced(s, DoCapture(s, t, ret), b)
  {
    CarriedUpdate(s.pc, t, Splice(s.q.xfree, ret), b);
  }

  lemma SpliceStep(s: State, t: Tid, chain: seq<Block>, ret: Return, b: Block)
    requires t < |s.pc| && s.pc[t] == Splice(chain, ret)
    ensures Balanced(s, DoSplice(s, t, chain, ret), b)
  {
    if chain != [] {
      CarriedUpdate(s.pc, t, Splice(chain[1..], ret), b);
      CountCons(chain[0], s.q.free, b);
    } else {
      CarriedUpdate(s.pc, t, Resume(ret), b);
      AdoptCount(s.q, b);
    }
  }

  lemma PartlyStep(s: State, t: Tid, x: Block, b: Block)
    requires t < |s.pc| && s.pc[t] == Mt(Partly(x)) && x in s.q.xfree
    ensures Balanced(s, DoPartly(s, t, x), b)
  {
    CarriedUpdate(s.pc, t, DoPartly(s, t, x).pc[t], b);
    TakeBelowCount(s.q, x, b);
  }

  lemma ExitStep(s: State, t: Tid, e: ExitPc, ok: bool, b: Block)
    requires t < |s.pc| && s.pc[t] == Exit(e)
    ensures Balanced(s, DoExit(s, t, e, ok), b)
  {
    IdleStep(s, DoExit(s, t, e, ok), t, b);
  }

  lemma MtStep(s: State, t: Tid, m: MtPc, ok: bool, b: Block)
    requires t < |s.pc| && s.pc[t] == Mt(m) && !m.Partly?
    ensures Balanced(s, DoMt(s, t, m, ok), b)
  {
    IdleStep(s, DoMt(s, t, m, ok), t, b);
  }

  lemma AdvanceStep(s: State, t: Tid, ok: bool, b: Block)
    requires CanAdvance(s, t)
    ensures Balanced(s, DoAdvance(s, t, ok), b)
  {
    match s.pc[t]
    case Pushing(x) => PushStep(s, t, x, b);
    case Capture(ret) => CaptureStep(s, t, ret, b);
    case Splice(chain, ret) => SpliceStep(s, t, chain, ret, b);
    case Exit(e) => ExitStep(s, t, e, ok, b);
    case Reclaiming(r) => IdleStep(s, DoReclaim(s, t, r), t, b);
    case Mt(m) => if m.Partly? { PartlyStep(s, t, m.pushed, b); } else { MtStep(s, t, m, ok, b); }
  }

  lemma AllocStep(s: State, request: Request, b: Block)
    requires s.q.free != []
    ensures Balanced(s, DoAlloc(s, request), b)
  {
    PopCount(s.q, b);
  }

  lemma FreeLocalStep(s: State, t: Tid, x: Block, b: Block)
    requires Enabled(s, FreeLocal(t, x))
    ensures Balanced(s, Apply(s, FreeLocal(t, x)), b)
  {
    CountCons(x, s.q.local, b);
  }

  lemma FreeCrossStep(s: State, t: Tid, x: Block, b: Block)
    requires Enabled(s, FreeCross(t, x))
    ensures Balanced(s, Apply(s, FreeCross(t, x)), b)
  {
    CarriedUpdate(s.pc, t, Pushing(x), b);
    CountCons(x, [], b);
  }

  lemma RestStep(s: State, step: Step, b: Block)
    requires Enabled(s, step) && !step.Advance? && !step.Extend?
    ensures Balanced(s, Apply(s, step), b)
  {
    match step
    case Alloc(t, request) => AllocStep(s, request, b);
    case FreeLocal(t, x) => FreeLocalStep(s, t, x, b);
    case FreeCross(t, x) => FreeCrossStep(s, t, x, b);
    case MarkInterior(_, _) =>
    case Write(_, _) =>
    case StartCollect(t) => IdleStep(s, At(s, t, Capture(ToOwn)), t, b);
    case Retire(t) => IdleStep(s, DoRelease(s, t), t, b);
    case StartExit(t) => IdleStep(s, At(s, t, Capture(ToExitTest)), t, b);
    case Reclaim(t) => IdleStep(s, Apply(s, step), t, b);
  }

  lemma ExtendStep(s: State, t: Tid, b: Block)
    requires Enabled(s, Extend(t)) && s.q.capacity <= s.cfg.reserved
    ensures var s' := Apply(s, Extend(t));
            && Places(s', b) == Places(s, b) + (if s.q.capacity <= b < s'.q.capacity then 1 else 0)
            && Outstanding(s') - s'.q.used == Outstanding(s) - s.q.used
            && s'.q.capacity <= s'.cfg.reserved && s'.cfg == s.cfg
  {
    GrowCount(s.cfg, s.q, b);
  }

  lemma ConservedStep(s: State, step: Step)
    requires Conserved(s) && Enabled(s, step)
    ensures Conserved(Apply(s, step))
  {
    var s' := Apply(s, step);
    if step.Extend? {
      forall b: Block ensures Places(s', b) == if b < s'.q.capacity then 1 else 0 {
        ExtendStep(s, step.t, b);
      }
      ExtendStep(s, step.t, 0);
    } else {
      forall b: Block ensures Places(s', b) == if b < s'.q.capacity then 1 else 0 {
        if step.Advance? { AdvanceStep(s, step.t, step.registryOk, b); } else { RestStep(s, step, b); }
        assert Balanced(s, s', b);
      }
      if step.Advance? { AdvanceStep(s, step.t, step.registryOk, 0); } else { RestStep(s, step, 0); }
    }
  }
}
