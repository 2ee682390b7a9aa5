/// What becomes of a page when one thread runs its operation to the end with
/// nobody in between: a page without a block in anybody's hands is given back,
/// and any other is left the way the next thread needs it.

module PageAlone {
  import opened PageProtocol
  import opened PageConservation
  import opened PageOwnership
  import opened PageZero
  import opened PageTheorems
  import opened PageLists
  import opened PageRefinement

  // ----- what decides the fate of a page ------------------------------------

  /// Block `b` is in the program's hands, or on its way back with another thread.
  ghost predicate Away(s: State, t: Tid, b: Block) {
    b in s.q.live || exists u: Tid :: u != t && CarriedBy(s, b, u)
  }

  ghost predicate NoneAway(s: State, t: Tid) { forall b: Block :: !Away(s, t, b) }

  /// Some block of the page could be served.
  ghost predicate CanServe(s: State, t: Tid) { exists b: Block :: b < s.cfg.reserved && !Away(s, t, b) }

  /// Only thread `t` has moved; the program's blocks are as they were.
  ghost predicate Moved(s: State, s': State, t: Tid) {
    && t < |s.pc| == |s'.pc| && s'.pc == s.pc[t := s'.pc[t]]
    && s'.cfg == s.cfg && s'.q.live == s.q.live && s'.inside == s.inside
  }

  lemma MovedTrans(s: State, s1: State, s2: State, t: Tid)
    requires Moved(s, s1, t) && Moved(s1, s2, t)
    ensures Moved(s, s2, t)
  {
  }

  lemma SameAway(s: State, s': State, t: Tid)
    requires Moved(s, s', t)
    ensures NoneAway(s', t) <==> NoneAway(s, t)
    ensures CanServe(s', t) <==> CanServe(s, t)
  {
    forall b: Block ensures Away(s', t, b) <==> Away(s, t, b) {
      forall u: Tid | u != t ensures CarriedBy(s', b, u) <==> CarriedBy(s, b, u) {
        assert u < |s.pc| ==> s'.pc[u] == s.pc[u];
      }
    }
  }

  lemma {:induction false} SomeoneCarries(pc: seq<Pc>, b: Block) returns (u: Tid)
    requires CarriedCount(pc, b) > 0
    ensures u < |pc| && b in Carried(pc[u])
  {
    if Count(Carried(pc[0]), b) > 0 {
      CountMember(Carried(pc[0]), b);
      u := 0;
    } else {
      u := SomeoneCarries(pc[1..], b);
      u := u + 1;
    }
  }

  /// With its stack taken in, the page has exactly the blocks away in use.
  lemma DrainedUse(s: State, t: Tid)
    requires FullInv(s) && t < |s.pc| && Carried(s.pc[t]) == [] && s.q.xfree == []
    ensures s.q.used == 0 <==> NoneAway(s, t)
  {
    if s.q.used == 0 {
      forall b: Block ensures !Away(s, t, b) {
        forall u: Tid | u < |s.pc| ensures !CarriedBy(s, b, u) {
          CarriedMember(s.pc, u, b);
        }
      }
    }
    if NoneAway(s, t) { NobodyHasAny(s, t); }
  }

  lemma NobodyHasAny(s: State, t: Tid)
    requires NoneAway(s, t) && t < |s.pc| && Carried(s.pc[t]) == []
    ensures |s.q.live| == 0 && CarriedSize(s.pc) == 0
  {
    forall b: Block ensures b !in s.q.live { assert !Away(s, t, b); }
    forall u: Tid | u < |s.pc| ensures Carried(s.pc[u]) == [] {
      if u != t && Carried(s.pc[u]) != [] {
        assert CarriedBy(s, Carried(s.pc[u])[0], u);
        assert Away(s, t, Carried(s.pc[u])[0]);
      }
    }
    NothingCarriedAtFirst(s.pc, 0);
  }

  /// A drained page can serve a block iff its free list or its rest has one.
  lemma DrainedRoom(s: State, t: Tid)
    requires FullInv(s) && t < |s.pc| && Carried(s.pc[t]) == [] && s.q.xfree == [] && s.q.local == []
    ensures CanServe(s, t) <==> !IsFullNow(s)
  {
    if s.q.free != [] { FreeNotAway(s, t, s.q.free[0]); }
    if s.q.capacity < s.cfg.reserved { FreeNotAway(s, t, s.q.capacity); }
    if IsFullNow(s) {
      forall b: Block | b < s.cfg.reserved ensures Away(s, t, b) {
        assert Places(s, b) == 1;
        if b !in s.q.live {
          var u := SomeoneCarries(s.pc, b);
          assert CarriedBy(s, b, u);
        }
      }
    }
  }

  /// A block on the free list, or not threaded yet, is with nobody.
  lemma FreeNotAway(s: State, t: Tid, b: Block)
    requires FullInv(s) && t < |s.pc| && (b in s.q.free || b == s.q.capacity)
    ensures !Away(s, t, b) && (b in s.q.free ==> b < s.cfg.reserved)
  {
    assert Places(s, b) == if b < s.q.capacity then 1 else 0;
    CountMember(s.q.free, b);
    forall u: Tid | u < |s.pc| ensures !CarriedBy(s, b, u) {
      CarriedMember(s.pc, u, b);
      CountMember(Carried(s.pc[u]), b);
    }
  }

  // ----- runs of one thread -------------------------------------------------

  /// Actions of thread `t`, with nobody else's in between, lead from `s` to `s'`.
  ghost predicate Leads(s: State, t: Tid, ok: bool, s': State) {
    exists n: nat :: Run(s, Alone(t, ok, n), s')
  }

  lemma {:induction false} AloneConcat(t: Tid, ok: bool, n: nat, m: nat)
    ensures Alone(t, ok, n) + Alone(t, ok, m) == Alone(t, ok, n + m)
  {
    if n > 0 { AloneConcat(t, ok, n - 1, m); }
  }

  lemma LeadsOn(s: State, t: Tid, ok: bool, s1: State, s2: State)
    requires Leads(s, t, ok, s1) && Leads(s1, t, ok, s2)
    ensures Leads(s, t, ok, s2)
  {
    var n: nat :| Run(s, Alone(t, ok, n), s1);
    var m: nat :| Run(s1, Alone(t, ok, m), s2);
    AloneConcat(t, ok, n, m);
    RunJoins(s, Alone(t, ok, n), s1, Alone(t, ok, m), s2);
    assert Run(s, Alone(t, ok, n + m), s2);
  }

  /// One action of thread `t`.
  lemma Act(s: State, t: Tid, ok: bool) returns (s': State)
    requires FullInv(s) && CanAdvance(s, t)
    ensures s' == DoAdvance(s, t, ok) && Leads(s, t, ok, s') && FullInv(s')
  {
    s' := Apply(s, Advance(t, ok));
    assert Run(s', Alone(t, ok, 0), s');
    AloneFrom(s, t, ok, 0, s');
    FullInvRun(s, Alone(t, ok, 1), s');
  }

  /// One action of a claimer that neither collects nor gives back.
  lemma ActMt(s: State, t: Tid, ok: bool) returns (s': State)
    requires FullInv(s) && t < |s.pc| && s.pc[t].Mt? && !s.pc[t].m.Partly? && !s.pc[t].m.Release?
    ensures s' == DoMt(s, t, s.pc[t].m, ok) && Leads(s, t, ok, s') && FullInv(s') && Moved(s, s', t)
    ensures s'.q == s.q
  {
    s' := Act(s, t, ok);
    MtMoves(s, t, ok);
  }

  lemma MtMoves(s: State, t: Tid, ok: bool)
    requires t < |s.pc| && s.pc[t].Mt? && !s.pc[t].m.Partly? && !s.pc[t].m.Release?
    ensures Moved(s, DoMt(s, t, s.pc[t].m, ok), t) && DoMt(s, t, s.pc[t].m, ok).q == s.q
  {
  }

  /// A whole collect.
  lemma Drain(s: State, t: Tid, ok: bool, ret: Return) returns (s': State)
    requires FullInv(s) && t < |s.pc| && s.pc[t] == Capture(ret)
    ensures Leads(s, t, ok, s') && FullInv(s') && Moved(s, s', t) && s'.sh == s.sh
    ensures s'.pc[t] == Resume(ret) && s'.q == Collected(s.q)
    ensures s.q.xfree == [] && s.q.local == [] ==> s'.q == s.q
    ensures s'.mem.freeIsZero ==> s.mem.freeIsZero
  {
    s' := CollectAlone(s, t, ok, ret);
    FullInvRun(s, Alone(t, ok, |s.q.xfree| + 2), s');
    assert s.q.xfree == [] && s.q.local == [] ==> s.q.local + Reversed(s.q.xfree) + s.q.free == s.q.free;
  }

  // ----- free_try_collect_mt ------------------------------------------------

  /// Where a claimer that meets nobody ends: with the slices given back, and the
  /// registry entry gone, if no block is away; else with the page unowned and
  /// drained, registered if it is not yet and could serve a block.
  ghost predicate MtDone(s: State, s': State, t: Tid, ok: bool) {
    && Moved(s, s', t) && s'.pc[t].Out?
    && if NoneAway(s, t) then s'.sh.releases == 1 && !s'.sh.mapped
       else
         && s'.sh.releases == 0 && !s'.sh.owned && s'.q.xfree == []
         && s'.sh.stamp == (if s.sh.stamp.AbandonedMapped? || CanServe(s, t) then AbandonedMapped else Abandoned)
         && s'.sh.mapped == if s.sh.stamp.AbandonedMapped? then s.sh.mapped else CanServe(s, t) && ok
  }

  lemma MtDoneLater(s: State, s1: State, s2: State, t: Tid, ok: bool)
    requires Moved(s, s1, t) && s1.sh.stamp == s.sh.stamp && s1.sh.mapped == s.sh.mapped
    requires Leads(s, t, ok, s1) && Leads(s1, t, ok, s2) && MtDone(s1, s2, t, ok)
    ensures MtDone(s, s2, t, ok) && Leads(s, t, ok, s2)
  {
    LeadsOn(s, t, ok, s1, s2);
    MovedTrans(s, s1, s2, t);
    SameAway(s, s1, t);
  }

  /// Nobody in between, the ownership bit is let go at the first try.
  lemma UnownAlone(s: State, t: Tid, ok: bool) returns (s': State)
    requires FullInv(s) && t < |s.pc| && s.pc[t] == Mt(TryUnown) && s.q.xfree == []
    ensures Leads(s, t, ok, s') && Moved(s, s', t) && s'.pc[t].Out?
    ensures s'.q == s.q && s'.sh == s.sh.(owned := false) && s'.sh.releases == 0
  {
    assert PcOk(s.sh, s.q, t, s.pc[t]);
    s' := ActMt(s, t, ok);
  }

  lemma ReregisterAlone(s: State, t: Tid, ok: bool) returns (s': State)
    requires FullInv(s) && t < |s.pc| && s.pc[t] == Mt(Reregister)
    ensures Leads(s, t, ok, s') && FullInv(s') && Moved(s, s', t) && s'.pc[t] == Mt(TryUnown)
    ensures s'.q == s.q && s'.sh.stamp == AbandonedMapped && s'.sh.mapped == ok
  {
    assert PcOk(s.sh, s.q, t, s.pc[t]);
    var s1 := ActMt(s, t, ok);
    s' := ActMt(s1, t, ok);
    LeadsOn(s, t, ok, s1, s');
  }

  /// From the decision whether to register on.
  lemma SettleAlone(s: State, t: Tid, ok: bool) returns (s': State)
    requires FullInv(s) && t < |s.pc| && s.q.xfree == [] && !NoneAway(s, t)
    requires s.pc[t] == Mt(if s.sh.stamp.AbandonedMapped? || !CanServe(s, t) then TryUnown else Reregister)
    ensures Leads(s, t, ok, s') && MtDone(s, s', t, ok)
  {
    assert PcOk(s.sh, s.q, t, s.pc[t]);
    if s.pc[t] == Mt(Reregister) {
      var s1 := ReregisterAlone(s, t, ok);
      s' := UnownAlone(s1, t, ok);
      LeadsOn(s, t, ok, s1, s');
      MovedTrans(s, s1, s', t);
    } else {
      s' := UnownAlone(s, t, ok);
    }
  }

  /// `is_full`, and what follows from its answer.
  lemma FullTestAlone(s: State, t: Tid, ok: bool) returns (s': State)
    requires FullInv(s) && t < |s.pc| && s.pc[t] == Mt(IsFull) && s.q.xfree == [] && s.q.local == []
    ensures Leads(s, t, ok, s') && FullInv(s') && Moved(s, s', t) && s'.sh == s.sh && s'.q == s.q
    ensures s'.pc[t] == Mt(if s.sh.stamp.AbandonedMapped? || !CanServe(s, t) then TryUnown else Reregister)
  {
    DrainedRoom(s, t);
    if s.q.free != [] { s' := ActMt(s, t, ok); } else { s' := RetestAlone(s, t, ok); }
  }

  lemma RetestAlone(s: State, t: Tid, ok: bool) returns (s': State)
    requires FullInv(s) && t < |s.pc| && s.pc[t] == Mt(IsFull) && s.q.free == []
    ensures Leads(s, t, ok, s') && FullInv(s') && Moved(s, s', t) && s'.sh == s.sh && s'.q == Collected(s.q)
    ensures s'.pc[t] == Mt(if IsFullNow(s') || s'.sh.stamp.AbandonedMapped? then TryUnown else Reregister)
    ensures s.q.xfree == [] && s.q.local == [] ==> s'.q == s.q
  {
    var s1 := ActMt(s, t, ok);
    var s2 := Drain(s1, t, ok, ToMtRetest);
    LeadsOn(s, t, ok, s1, s2);
    MovedTrans(s, s1, s2, t);
    s' := ActMt(s2, t, ok);
    LeadsOn(s, t, ok, s2, s');
    MovedTrans(s, s2, s', t);
  }

  /// A block is away, and nothing is queued.
  lemma KeptAlone(s: State, t: Tid, ok: bool) returns (s': State)
    requires FullInv(s) && t < |s.pc| && s.pc[t] == Mt(IsFull) && s.q.xfree == [] && s.q.local == [] && !NoneAway(s, t)
    ensures Leads(s, t, ok, s') && MtDone(s, s', t, ok)
  {
    var s1 := FullTestAlone(s, t, ok);
    SameAway(s, s1, t);
    s' := SettleAlone(s1, t, ok);
    MtDoneLater(s, s1, s', t, ok);
  }

  lemma ReleaseAlone(s: State, t: Tid, ok: bool) returns (s': State)
    requires FullInv(s) && t < |s.pc| && s.pc[t] == Mt(IsEmpty) && s.q.used == 0 && NoneAway(s, t)
    ensures Leads(s, t, ok, s') && MtDone(s, s', t, ok)
  {
    assert PcOk(s.sh, s.q, t, s.pc[t]);
    var s1 := ActMt(s, t, ok);
    assert s1.pc[t] == Mt(Unmap);
    s' := UnmapAlone(s1, t, ok);
    LeadsOn(s, t, ok, s1, s');
    MovedTrans(s, s1, s', t);
  }

  lemma UnmapAlone(s: State, t: Tid, ok: bool) returns (s': State)
    requires FullInv(s) && t < |s.pc| && s.pc[t] == Mt(Unmap)
    ensures Leads(s, t, ok, s') && Moved(s, s', t) && s'.pc[t].Out? && s'.sh.releases == 1 && !s'.sh.mapped
  {
    assert PcOk(s.sh, s.q, t, s.pc[t]);
    var s1 := ActMt(s, t, ok);
    assert PcOk(s1.sh, s1.q, t, s1.pc[t]);
    s' := Act(s1, t, ok);
    LeadsOn(s, t, ok, s1, s');
  }

  /// After a whole collect.
  lemma DrainedAlone(s: State, t: Tid, ok: bool) returns (s': State)
    requires FullInv(s) && t < |s.pc| && s.pc[t] == Mt(IsEmpty) && s.q.xfree == [] && s.q.local == []
    ensures Leads(s, t, ok, s') && MtDone(s, s', t, ok)
  {
    DrainedUse(s, t);
    if s.q.used == 0 {
      s' := ReleaseAlone(s, t, ok);
    } else {
      var s1 := ActMt(s, t, ok);
      SameAway(s, s1, t);
      s' := KeptAlone(s1, t, ok);
      MtDoneLater(s, s1, s', t, ok);
    }
  }

  lemma CollectedAlone(s: State, t: Tid, ok: bool) returns (s': State)
    requires FullInv(s) && t < |s.pc| && s.pc[t] == Capture(ToMtTest)
    ensures Leads(s, t, ok, s') && MtDone(s, s', t, ok)
  {
    var s1 := Drain(s, t, ok, ToMtTest);
    s' := DrainedAlone(s1, t, ok);
    MtDoneLater(s, s1, s', t, ok);
  }

  /// A page with more in use than the block left on its stack has one away.
  lemma SomeAway(s: State, t: Tid)
    requires FullInv(s) && t < |s.pc| && Carried(s.pc[t]) == [] && s.q.used > |s.q.xfree|
    ensures !NoneAway(s, t)
  {
    if NoneAway(s, t) { NobodyHasAny(s, t); }
  }

  /// The fast collect left the pushed block on the stack, and the free list is
  /// empty all the same: the test for a full page takes it in.
  lemma LeftoverTaken(s: State, t: Tid, ok: bool) returns (s': State)
    requires FullInv(s) && t < |s.pc| && s.pc[t] == Mt(IsFull) && s.q.free == [] && !NoneAway(s, t)
    ensures Leads(s, t, ok, s') && MtDone(s, s', t, ok)
  {
    var s1 := RetestAlone(s, t, ok);
    SameAway(s, s1, t);
    DrainedRoom(s1, t);
    s' := SettleAlone(s1, t, ok);
    MtDoneLater(s, s1, s', t, ok);
  }

  /// With a block on the free list the page is registered first, and then not
  /// let go, so that the pushed block is taken in by another round.
  lemma LeftoverKept(s: State, t: Tid, ok: bool) returns (s': State)
    requires FullInv(s) && t < |s.pc| && s.pc[t] == Mt(IsFull) && s.q.free != [] && s.q.xfree != [] && !NoneAway(s, t)
    ensures Leads(s, t, ok, s') && MtDone(s, s', t, ok)
  {
    FreeNotAway(s, t, s.q.free[0]);
    assert PcOk(s.sh, s.q, t, s.pc[t]);
    var s1 := ActMt(s, t, ok);
    var s2 := s1;
    if !s.sh.stamp.AbandonedMapped? {
      s2 := ReregisterAlone(s1, t, ok);
      LeadsOn(s, t, ok, s1, s2);
      MovedTrans(s, s1, s2, t);
    }
    assert PcOk(s2.sh, s2.q, t, s2.pc[t]);
    s' := SecondRound(s2, t, ok);
    LeadsOn(s, t, ok, s2, s');
    MovedTrans(s, s2, s', t);
    SameAway(s, s2, t);
  }

  lemma SecondRound(s: State, t: Tid, ok: bool) returns (s': State)
    requires FullInv(s) && t < |s.pc| && s.pc[t] == Mt(TryUnown) && s.q.xfree != []
    ensures Leads(s, t, ok, s') && MtDone(s, s', t, ok)
  {
    var s1 := ActMt(s, t, ok);
    s' := CollectedAlone(s1, t, ok);
    MtDoneLater(s, s1, s', t, ok);
  }

  /// After the fast collect of small blocks.
  lemma LeftoverAlone(s: State, t: Tid, ok: bool) returns (s': State)
    requires FullInv(s) && t < |s.pc| && s.pc[t] == Mt(IsEmpty) && s.q.xfree != [] && s.q.used > |s.q.xfree|
    ensures Leads(s, t, ok, s') && MtDone(s, s', t, ok)
  {
    SomeAway(s, t);
    var s1 := ActMt(s, t, ok);
    SameAway(s, s1, t);
    if s.q.free == [] { s' := LeftoverTaken(s1, t, ok); } else { s' := LeftoverKept(s1, t, ok); }
    MtDoneLater(s, s1, s', t, ok);
  }

  lemma PartlyAlone(s: State, t: Tid, b: Block, ok: bool) returns (s': State)
    requires FullInv(s) && t < |s.pc| && s.pc[t] == Mt(Partly(b)) && s.q.xfree != [] && s.q.xfree[0] == b
    ensures Leads(s, t, ok, s') && MtDone(s, s', t, ok)
  {
    var s1 := Act(s, t, ok);
    OnlyPushed(s.q, b);
    if s1.q.used == 1 { s' := CollectedAlone(s1, t, ok); } else { s' := LeftoverFirst(s1, t, ok); }
    MtDoneLater(s, s1, s', t, ok);
  }

  lemma LeftoverFirst(s: State, t: Tid, ok: bool) returns (s': State)
    requires FullInv(s) && t < |s.pc| && s.pc[t] == Mt(IsEmpty) && |s.q.xfree| == 1 && s.q.used != 1
    ensures Leads(s, t, ok, s') && MtDone(s, s', t, ok)
  {
    assert s.q.used >= |s.q.xfree|;
    s' := LeftoverAlone(s, t, ok);
  }

  lemma OnlyPushed(q: Lists, b: Block)
    requires q.xfree != [] && q.xfree[0] == b
    ensures TakeBelow(q, b).xfree == [b] && TakeBelow(q, b).live == q.live
  {
    assert IndexOf(q.xfree, b) == 0;
    if |q.xfree| == 1 { assert q.xfree == [b]; }
  }

  // ----- a free from another thread -----------------------------------------

  /// The push onto a page that nobody owns, and all that follows from it.
  lemma PushAlone(s: State, t: Tid, b: Block, ok: bool) returns (s': State)
    requires FullInv(s) && t < |s.pc| && s.pc[t] == Pushing(b) && !s.sh.owned
    ensures Leads(s, t, ok, s') && MtDone(s, s', t, ok)
  {
    var s1 := Act(s, t, ok);
    if Small(s.cfg) { s' := PartlyAlone(s1, t, b, ok); } else { s' := CollectedAlone(s1, t, ok); }
    MtDoneLater(s, s1, s', t, ok);
  }

  /// The push onto a page with an owner just leaves the block there.
  lemma PushToOwner(s: State, t: Tid, b: Block, ok: bool) returns (s': State)
    requires FullInv(s) && t < |s.pc| && s.pc[t] == Pushing(b) && s.sh.owned
    ensures Leads(s, t, ok, s') && Moved(s, s', t) && s'.pc[t].Out?
    ensures s'.sh == s.sh && s'.q == s.q.(xfree := [b] + s.q.xfree)
  {
    s' := Act(s, t, ok);
  }

  // ----- abandon_owned_page -------------------------------------------------

  /// Where an owner that hands its page over and meets nobody ends: with the
  /// slices given back if no block is away; else with the page unowned and
  /// drained, registered iff it could serve a block.
  ghost predicate ExitDone(s: State, s': State, t: Tid, ok: bool) {
    && Moved(s, s', t) && s'.pc[t].Out?
    && if NoneAway(s, t) then s'.sh.releases == 1 && !s'.sh.mapped
       else
         && s'.sh.releases == 0 && !s'.sh.owned && s'.q.xfree == []
         && s'.sh.stamp == (if CanServe(s, t) then AbandonedMapped else Abandoned)
         && s'.sh.mapped == (CanServe(s, t) && ok)
  }

  lemma ExitDoneLater(s: State, s1: State, s2: State, t: Tid, ok: bool)
    requires Moved(s, s1, t) && Leads(s, t, ok, s1) && Leads(s1, t, ok, s2) && ExitDone(s1, s2, t, ok)
    ensures ExitDone(s, s2, t, ok) && Leads(s, t, ok, s2)
  {
    LeadsOn(s, t, ok, s1, s2);
    MovedTrans(s, s1, s2, t);
    SameAway(s, s1, t);
  }

  /// One action of the owner that gives nothing back.
  lemma ActExit(s: State, t: Tid, ok: bool) returns (s': State)
    requires FullInv(s) && t < |s.pc| && s.pc[t].Exit? && (s.pc[t].e.Test? ==> s.q.used != 0)
    ensures s' == DoExit(s, t, s.pc[t].e, ok) && Leads(s, t, ok, s') && FullInv(s') && Moved(s, s', t)
    ensures s'.q == s.q
  {
    s' := Act(s, t, ok);
  }

  lemma RegisterAlone(s: State, t: Tid, ok: bool) returns (s': State)
    requires FullInv(s) && t < |s.pc| && s.pc[t] == Exit(Register)
    ensures Leads(s, t, ok, s') && Moved(s, s', t) && s'.pc[t].Out? && s'.q == s.q
    ensures s'.sh.stamp == AbandonedMapped && s'.sh.mapped == ok && !s'.sh.owned && s'.sh.releases == 0
  {
    assert PcOk(s.sh, s.q, t, s.pc[t]);
    var s1 := ActExit(s, t, ok);
    s' := StampAlone(s1, t, ok);
    LeadsOn(s, t, ok, s1, s');
    MovedTrans(s, s1, s', t);
  }

  lemma StampAlone(s: State, t: Tid, ok: bool) returns (s': State)
    requires FullInv(s) && t < |s.pc| && s.pc[t] == Exit(StampMapped)
    ensures Leads(s, t, ok, s') && Moved(s, s', t) && s'.pc[t].Out? && s'.q == s.q
    ensures s'.sh == s.sh.(stamp := AbandonedMapped, owned := false) && s'.sh.releases == 0
  {
    assert PcOk(s.sh, s.q, t, s.pc[t]);
    var s1 := ActExit(s, t, ok);
    s' := ActExit(s1, t, ok);
    LeadsOn(s, t, ok, s1, s');
  }

  lemma HandOverFull(s: State, t: Tid, ok: bool) returns (s': State)
    requires FullInv(s) && t < |s.pc| && s.pc[t] == Exit(StampFull)
    ensures Leads(s, t, ok, s') && Moved(s, s', t) && s'.pc[t].Out? && s'.q == s.q
    ensures s'.sh.stamp == Abandoned && !s'.sh.mapped && !s'.sh.owned && s'.sh.releases == 0
  {
    assert PcOk(s.sh, s.q, t, s.pc[t]);
    var s1 := ActExit(s, t, ok);
    s' := ActExit(s1, t, ok);
    LeadsOn(s, t, ok, s1, s');
  }

  /// From the decision whether to register on.
  lemma HandOverAlone(s: State, t: Tid, ok: bool) returns (s': State)
    requires FullInv(s) && t < |s.pc| && s.q.xfree == [] && !NoneAway(s, t)
    requires s.pc[t] == Exit(if CanServe(s, t) then Register else StampFull)
    ensures Leads(s, t, ok, s') && ExitDone(s, s', t, ok)
  {
    if CanServe(s, t) { s' := RegisterAlone(s, t, ok); } else { s' := HandOverFull(s, t, ok); }
  }

  /// `is_full`, and what follows from its answer.
  lemma DecideAlone(s: State, t: Tid, ok: bool) returns (s': State)
    requires FullInv(s) && t < |s.pc| && s.pc[t] == Exit(Decide) && s.q.xfree == [] && s.q.local == []
    ensures Leads(s, t, ok, s') && FullInv(s') && Moved(s, s', t) && s'.q == s.q
    ensures s'.pc[t] == Exit(if CanServe(s, t) then Register else StampFull)
  {
    DrainedRoom(s, t);
    var s1 := ActExit(s, t, ok);
    if s.q.free != [] {
      s' := s1;
    } else {
      var s2 := Drain(s1, t, ok, ToExitRetest);
      LeadsOn(s, t, ok, s1, s2);
      MovedTrans(s, s1, s2, t);
      s' := ActExit(s2, t, ok);
      LeadsOn(s, t, ok, s2, s');
      MovedTrans(s, s2, s', t);
    }
  }

  lemma ExitKept(s: State, t: Tid, ok: bool) returns (s': State)
    requires FullInv(s) && t < |s.pc| && s.pc[t] == Exit(Test) && s.q.xfree == [] && s.q.local == []
    requires s.q.used != 0 && !NoneAway(s, t)
    ensures Leads(s, t, ok, s') && ExitDone(s, s', t, ok)
  {
    var s1 := ActExit(s, t, ok);
    SameAway(s, s1, t);
    var s2 := DecideAlone(s1, t, ok);
    SameAway(s1, s2, t);
    s' := HandOverAlone(s2, t, ok);
    ExitDoneLater(s1, s2, s', t, ok);
    ExitDoneLater(s, s1, s', t, ok);
  }

  lemma ExitTested(s: State, t: Tid, ok: bool) returns (s': State)
    requires FullInv(s) && t < |s.pc| && s.pc[t] == Exit(Test) && s.q.xfree == [] && s.q.local == []
    ensures Leads(s, t, ok, s') && ExitDone(s, s', t, ok)
  {
    DrainedUse(s, t);
    assert PcOk(s.sh, s.q, t, s.pc[t]);
    if s.q.used == 0 { s' := Act(s, t, ok); } else { s' := ExitKept(s, t, ok); }
  }

  // ----- what each operation comes to ---------------------------------------

  /// Freeing a block of another's page: with an owner the block just waits on
  /// the stack; without one the page is claimed and settled.
  lemma FreedAlone(s: State, t: Tid, b: Block, ok: bool) returns (s': State)
    requires Reachable(s) && Enabled(s, FreeCross(t, b))
    ensures var s1 := Apply(s, FreeCross(t, b));
      && Leads(s1, t, ok, s') && t < |s'.pc| && s'.pc[t].Out?
      && (if s.sh.owned then s'.sh == s.sh && s'.q.xfree == [b] + s.q.xfree else MtDone(s1, s', t, ok))
  {
    ReachableInv(s);
    var s1 := Apply(s, FreeCross(t, b));
    FullInvStep(s, FreeCross(t, b));
    if s.sh.owned { s' := PushToOwner(s1, t, b, ok); } else { s' := PushAlone(s1, t, b, ok); }
  }

  /// The last block of an unowned page takes the page with it.
  lemma LastFreeReleases(s: State, t: Tid, b: Block, ok: bool) returns (s': State)
    requires Reachable(s) && Enabled(s, FreeCross(t, b)) && !s.sh.owned
    requires s.q.live == multiset{b} && forall u: Tid, x: Block :: !CarriedBy(s, x, u)
    ensures Leads(Apply(s, FreeCross(t, b)), t, ok, s') && t < |s'.pc| && s'.pc[t].Out?
    ensures s'.sh.releases == 1 && !s'.sh.mapped
  {
    s' := FreedAlone(s, t, b, ok);
    var s1 := Apply(s, FreeCross(t, b));
    forall x: Block ensures !Away(s1, t, x) {
      forall u: Tid | u != t ensures !CarriedBy(s1, x, u) { assert !CarriedBy(s, x, u); }
    }
  }

  /// A free that leaves another block in the program's hands leaves the page for
  /// others to claim: unowned, and registered, since it can serve a block.
  lemma FreeLeavesReclaimable(s: State, t: Tid, b: Block, x: Block) returns (s': State)
    requires Reachable(s) && Enabled(s, FreeCross(t, b)) && !s.sh.owned && x in s.q.live && x != b
    ensures Leads(Apply(s, FreeCross(t, b)), t, true, s') && t < |s'.pc| && s'.pc[t].Out?
    ensures s'.sh.releases == 0 && !s'.sh.owned && s'.q.xfree == [] && s'.sh.stamp == AbandonedMapped
    ensures s.sh.stranded || s'.sh.mapped
  {
    s' := FreedAlone(s, t, b, true);
    var s1 := Apply(s, FreeCross(t, b));
    ReachableInv(s);
    assert Away(s1, t, x);
    FreedIsBack(s, t, b);
    assert !Away(s1, t, b);
  }

  /// A block just freed is with nobody but the thread that frees it.
  lemma FreedIsBack(s: State, t: Tid, b: Block)
    requires FullInv(s) && Enabled(s, FreeCross(t, b))
    ensures b < s.cfg.reserved && !Away(Apply(s, FreeCross(t, b)), t, b)
  {
    var s1 := Apply(s, FreeCross(t, b));
    assert Places(s, b) == if b < s.q.capacity then 1 else 0;
    forall u: Tid | u != t && u < |s.pc| ensures !CarriedBy(s1, b, u) {
      CarriedMember(s.pc, u, b);
      CountMember(Carried(s.pc[u]), b);
    }
  }

  /// Handing a page over: released without a block away, else left unowned and
  /// registered iff it could serve one.
  lemma HandedOverAlone(s: State, t: Tid, ok: bool) returns (s': State)
    requires Reachable(s) && Enabled(s, StartExit(t))
    ensures Leads(Apply(s, StartExit(t)), t, ok, s') && ExitDone(s, s', t, ok)
  {
    ReachableInv(s);
    var s1 := Apply(s, StartExit(t));
    FullInvStep(s, StartExit(t));
    var s2 := Drain(s1, t, ok, ToExitTest);
    s' := ExitTested(s2, t, ok);
    ExitDoneLater(s1, s2, s', t, ok);
    SameAway(s, s1, t);
  }

  /// Whoever finds a registered page may reclaim it.
  lemma AnyoneMayReclaim(s: State, t: Tid)
    requires Reachable(s) && t < |s.pc| && s.pc[t].Out?
    requires !s.sh.owned && s.sh.stamp == AbandonedMapped && !s.sh.stranded
    ensures Enabled(s, Reclaim(t))
  {
    UnownedRegistryAgrees(s);
  }

  /// A reclaimed page is in the thread's queue, no longer registered, and drained.
  lemma ReclaimedAlone(s: State, t: Tid, ok: bool) returns (s': State)
    requires Reachable(s) && Enabled(s, Reclaim(t))
    ensures Leads(Apply(s, Reclaim(t)), t, ok, s') && Moved(s, s', t)
    ensures s'.pc[t].Own? && s'.sh.stamp == Owner(t) && s'.sh.owned && !s'.sh.mapped
    ensures s'.q == Collected(s.q) && !s'.mem.freeIsZero
  {
    ReachableInv(s);
    var s1 := Apply(s, Reclaim(t));
    FullInvStep(s, Reclaim(t));
    var s2 := ReclaimStamps(s1, t, ok);
    s' := Drain(s2, t, ok, ToOwn);
    LeadsOn(s1, t, ok, s2, s');
    MovedTrans(s1, s2, s', t);
  }

  lemma ActReclaim(s: State, t: Tid, ok: bool) returns (s': State)
    requires FullInv(s) && t < |s.pc| && s.pc[t].Reclaiming?
    ensures s' == DoReclaim(s, t, s.pc[t].r) && Leads(s, t, ok, s') && FullInv(s') && Moved(s, s', t) && s'.q == s.q
  {
    s' := Act(s, t, ok);
  }

  lemma ReclaimStamps(s: State, t: Tid, ok: bool) returns (s': State)
    requires FullInv(s) && t < |s.pc| && s.pc[t] == Reclaiming(Claimed)
    ensures Leads(s, t, ok, s') && FullInv(s') && Moved(s, s', t) && s'.q == s.q && s'.pc[t] == Capture(ToOwn)
    ensures s'.sh.stamp == Owner(t) && s'.sh.owned == s.sh.owned && !s'.sh.mapped && !s'.mem.freeIsZero
  {
    var s1 := ActReclaim(s, t, ok);
    var s2 := ActReclaim(s1, t, ok);
    LeadsOn(s, t, ok, s1, s2);
    s' := ActReclaim(s2, t, ok);
    LeadsOn(s, t, ok, s2, s');
  }
}
