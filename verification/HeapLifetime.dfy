/// First-class heaps shared by threads: a heap lives at an address that is
/// reused after it is freed, is counted by its handle and by every theap, and
/// each thread keeps a list of its own theaps which it searches by address.
/// Every atomic operation on a reference count is one step.

module HeapLifetime {

  type Addr = nat
  type Tid = nat

  /// A heap incarnation: addresses are reused, incarnations are not.
  type Inc = nat

  /// A thread's theap: the raw pointer to its heap and, for the statement of
  /// the theorems only, the incarnation it was made for.
  datatype Theap = Theap(heap: Addr, inc: Inc)

  /// A heap's reference count, and whether the program still has its handle.
  datatype Record = Record(inc: Inc, refcount: int, handle: bool)

  /// What a thread does once a release is through.
  datatype Next = ToIdle | ToExit | ToAlive(heap: Addr, inc: Inc)

  datatype Pc =
    | Idle
    | Linking(h: Theap)                           // counted, not yet in its list
    | Exiting                                     // thread exit, tearing its list down
    | Releasing(heap: Addr, inc: Inc, next: Next) // before the fetch_sub
    | Freeing(heap: Addr, inc: Inc, next: Next)   // it was the last reference

  datatype Thread = Thread(reg: seq<Theap>, pc: Pc)

  datatype State = State(
    threads: seq<Thread>,
    heaps: map<Addr, Record>,
    frees: seq<nat>)              // history: times each incarnation was freed

  datatype Step =
    | NewHeap(a: Addr)
    | Get(t: Tid, a: Addr)        // theap_for
    | Link(t: Tid)                // the rest of theap_for
    | Delete(t: Tid, a: Addr)
    | Exit(t: Tid)
    | ExitNext(t: Tid)
    | Release(t: Tid)             // the fetch_sub of release_ref
    | Free(t: Tid)                // meta_free

  // ----- the thread's list --------------------------------------------------

  /// Place of the first theap made for address `a`; past the end if none.
  function Find(reg: seq<Theap>, a: Addr): (i: nat)
    ensures i <= |reg|
    ensures i < |reg| ==> reg[i].heap == a
    ensures forall j :: 0 <= j < i ==> reg[j].heap != a
  {
    if reg == [] || reg[0].heap == a then 0 else 1 + Find(reg[1..], a)
  }

  function Without(reg: seq<Theap>, i: nat): seq<Theap>
    requires i < |reg|
  {
    reg[..i] + reg[i + 1..]
  }

  // ----- steps --------------------------------------------------------------

  function After(next: Next): Pc {
    match next
    case ToIdle => Idle
    case ToExit => Exiting
    case ToAlive(a, inc) => Releasing(a, inc, ToIdle)
  }

  predicate Uses(th: Thread, a: Addr) { th.pc.Linking? && th.pc.h.heap == a }

  /// What the code checks, and what the callers of `Heap` promise: a handle is
  /// used and deleted only while they have it, and deleted while no thread is
  /// inside a call on it.
  predicate Enabled(s: State, step: Step) {
    match step
    case NewHeap(a) => a !in s.heaps
    case Get(t, a) => t < |s.threads| && s.threads[t].pc.Idle? && a in s.heaps && s.heaps[a].handle
    case Link(t) => t < |s.threads| && s.threads[t].pc.Linking?
    case Delete(t, a) =>
      && t < |s.threads| && s.threads[t].pc.Idle? && a in s.heaps && s.heaps[a].handle
      && forall u :: 0 <= u < |s.threads| ==> !Uses(s.threads[u], a)
    case Exit(t) => t < |s.threads| && s.threads[t].pc.Idle?
    case ExitNext(t) => t < |s.threads| && s.threads[t].pc.Exiting? && s.threads[t].reg != []
    case Release(t) =>
      t < |s.threads| && s.threads[t].pc.Releasing? && s.threads[t].pc.heap in s.heaps
    case Free(t) =>
      t < |s.threads| && s.threads[t].pc.Freeing? && s.threads[t].pc.inc < |s.frees|
  }

  function SetThread(s: State, t: Tid, th: Thread): State
    requires t < |s.threads|
  {
    s.(threads := s.threads[t := th])
  }

  /// The address alone decides whether the thread has a theap for the heap.
  function DoGet(s: State, t: Tid, a: Addr): State
    requires t < |s.threads| && a in s.heaps
  {
    var th := s.threads[t];
    if Find(th.reg, a) < |th.reg| then s
    else
      var r := s.heaps[a];
      SetThread(s.(heaps := s.heaps[a := r.(refcount := r.refcount + 1)]), t,
                th.(pc := Linking(Theap(a, r.inc))))
  }

  /// Takes the thread's own theap out of its list, if it has one.
  function DoDelete(s: State, t: Tid, a: Addr): State
    requires t < |s.threads| && a in s.heaps
  {
    var th := s.threads[t];
    var r := s.heaps[a];
    var i := Find(th.reg, a);
    SetThread(s.(heaps := s.heaps[a := r.(handle := false)]), t,
      if i < |th.reg| then
        Thread(Without(th.reg, i), Releasing(th.reg[i].heap, th.reg[i].inc, ToAlive(a, r.inc)))
      else th.(pc := Releasing(a, r.inc, ToIdle)))
  }

  function DoRelease(s: State, t: Tid): State
    requires t < |s.threads| && s.threads[t].pc.Releasing? && s.threads[t].pc.heap in s.heaps
  {
    var th := s.threads[t];
    var p := th.pc;
    var r := s.heaps[p.heap];
    SetThread(s.(heaps := s.heaps[p.heap := r.(refcount := r.refcount - 1)]), t,
      th.(pc := if r.refcount == 1 then Freeing(p.heap, p.inc, p.next) else After(p.next)))
  }

  function DoFree(s: State, t: Tid): State
    requires t < |s.threads| && s.threads[t].pc.Freeing? && s.threads[t].pc.inc < |s.frees|
  {
    var th := s.threads[t];
    SetThread(s.(heaps := s.heaps - {th.pc.heap}, frees := s.frees[th.pc.inc := s.frees[th.pc.inc] + 1]), t,
              th.(pc := After(th.pc.next)))
  }

  function Apply(s: State, step: Step): State
    requires Enabled(s, step)
  {
    match step
    case NewHeap(a) =>
      s.(heaps := s.heaps[a := Record(|s.frees|, 1, true)], frees := s.frees + [0])
    case Get(t, a) => DoGet(s, t, a)
    case Link(t) => SetThread(s, t, Thread([s.threads[t].pc.h] + s.threads[t].reg, Idle))
    case Delete(t, a) => DoDelete(s, t, a)
    case Exit(t) => SetThread(s, t, s.threads[t].(pc := Exiting))
    case ExitNext(t) =>
      var reg := s.threads[t].reg;
      SetThread(s, t, Thread(reg[1..], Releasing(reg[0].heap, reg[0].inc, ToExit)))
    case Release(t) => DoRelease(s, t)
    case Free(t) => DoFree(s, t)
  }

  ghost predicate Init(s: State) {
    s.heaps == map[] && s.frees == [] && forall t :: 0 <= t < |s.threads| ==> s.threads[t] == Thread([], Idle)
  }

  ghost predicate Run(s: State, steps: seq<Step>, s': State)
    decreases |steps|
  {
    if steps == [] then s' == s
    else Enabled(s, steps[0]) && Run(Apply(s, steps[0]), steps[1..], s')
  }

  // ----- counting references ------------------------------------------------

  function RegRefs(reg: seq<Theap>, inc: Inc): nat {
    if reg == [] then 0 else (if reg[0].inc == inc then 1 else 0) + RegRefs(reg[1..], inc)
  }

  function NextRefs(next: Next, inc: Inc): nat {
    if next.ToAlive? && next.inc == inc then 1 else 0
  }

  function PcRefs(pc: Pc, inc: Inc): nat {
    match pc
    case Idle => 0
    case Exiting => 0
    case Linking(h) => if h.inc == inc then 1 else 0
    case Releasing(_, i, next) => (if i == inc then 1 else 0) + NextRefs(next, inc)
    case Freeing(_, _, next) => NextRefs(next, inc)
  }

  function ThreadRefs(th: Thread, inc: Inc): nat { RegRefs(th.reg, inc) + PcRefs(th.pc, inc) }

  function Total(threads: seq<Thread>, inc: Inc): nat {
    if threads == [] then 0 else ThreadRefs(threads[0], inc) + Total(threads[1..], inc)
  }

  lemma {:induction false} TotalUpdate(threads: seq<Thread>, t: Tid, th: Thread, inc: Inc)
    requires t < |threads|
    ensures Total(threads[t := th], inc) == Total(threads, inc) - ThreadRefs(threads[t], inc) + ThreadRefs(th, inc)
    ensures ThreadRefs(threads[t], inc) <= Total(threads, inc)
  {
    if t == 0 {
      assert threads[t := th][1..] == threads[1..];
    } else {
      assert threads[t := th][1..] == threads[1..][t - 1 := th];
      TotalUpdate(threads[1..], t - 1, th, inc);
    }
  }

  lemma {:induction false} RegWithout(reg: seq<Theap>, i: nat, inc: Inc)
    requires i < |reg|
    ensures RegRefs(reg, inc) == RegRefs(Without(reg, i), inc) + if reg[i].inc == inc then 1 else 0
  {
    if i > 0 {
      assert Without(reg, i)[1..] == Without(reg[1..], i - 1);
      RegWithout(reg[1..], i - 1, inc);
    } else {
      assert Without(reg, i) == reg[1..];
    }
  }

  lemma {:induction false} NoRefs(reg: seq<Theap>, inc: Inc)
    requires forall i :: 0 <= i < |reg| ==> reg[i].inc != inc
    ensures RegRefs(reg, inc) == 0
  {
    if reg != [] { NoRefs(reg[1..], inc); }
  }

  lemma {:induction false} SomeRef(reg: seq<Theap>, i: nat)
    requires i < |reg|
    ensures RegRefs(reg, reg[i].inc) >= 1
  {
    if i > 0 { SomeRef(reg[1..], i - 1); }
  }

  // ----- the invariant ------------------------------------------------------

  /// The pointer leads to the incarnation it was made for.
  predicate Points(heaps: map<Addr, Record>, a: Addr, inc: Inc) { a in heaps && heaps[a].inc == inc }

  predicate NextOk(heaps: map<Addr, Record>, next: Next) {
    next.ToAlive? ==> Points(heaps, next.heap, next.inc)
  }

  ghost predicate ThreadOk(heaps: map<Addr, Record>, th: Thread) {
    && (forall i :: 0 <= i < |th.reg| ==> Points(heaps, th.reg[i].heap, th.reg[i].inc))
    && (forall i, j :: 0 <= i < j < |th.reg| ==> th.reg[i].heap != th.reg[j].heap)
    && match th.pc
       case Idle => true
       case Exiting => true
       case Linking(h) => Points(heaps, h.heap, h.inc) && heaps[h.heap].handle && Find(th.reg, h.heap) == |th.reg|
       case Releasing(a, inc, next) => Points(heaps, a, inc) && NextOk(heaps, next)
       case Freeing(a, inc, next) => Points(heaps, a, inc) && heaps[a].refcount == 0 && NextOk(heaps, next)
  }

  predicate IsFreeing(th: Thread, a: Addr) { th.pc.Freeing? && th.pc.heap == a }

  /// The count is the handle's reference plus one for every theap, whatever
  /// stage of its making or unmaking it is in.
  ghost predicate HeapOk(s: State, a: Addr)
    requires a in s.heaps
  {
    var r := s.heaps[a];
    && r.inc < |s.frees| && s.frees[r.inc] == 0
    && r.refcount == Total(s.threads, r.inc) + if r.handle then 1 else 0
  }

  ghost predicate CountsOk(s: State) { forall a :: a in s.heaps ==> HeapOk(s, a) }

  ghost predicate IncsDistinct(heaps: map<Addr, Record>) {
    forall a, b :: a in heaps && b in heaps && heaps[a].inc == heaps[b].inc ==> a == b
  }

  ghost predicate ThreadsOk(heaps: map<Addr, Record>, threads: seq<Thread>) {
    forall t :: 0 <= t < |threads| ==> ThreadOk(heaps, threads[t])
  }

  /// A heap is being freed by at most one thread, and is if its count is 0.
  ghost predicate FreersOk(heaps: map<Addr, Record>, threads: seq<Thread>) {
    && (forall t, u, a :: 0 <= t < u < |threads| && IsFreeing(threads[t], a) ==> !IsFreeing(threads[u], a))
    && (forall a :: a in heaps && heaps[a].refcount == 0 ==> BeingFreed(threads, a))
  }

  ghost predicate BeingFreed(threads: seq<Thread>, a: Addr) {
    exists t :: 0 <= t < |threads| && IsFreeing(threads[t], a)
  }

  /// Freed at most once, and not yet exactly while allocated.
  ghost predicate FreesOk(heaps: map<Addr, Record>, frees: seq<nat>) {
    forall i :: 0 <= i < |frees| ==> frees[i] <= 1 && (frees[i] == 0 ==> Placed(heaps, i))
  }

  ghost predicate Placed(heaps: map<Addr, Record>, inc: Inc) { exists a :: a in heaps && heaps[a].inc == inc }

  ghost predicate Inv(s: State) {
    && CountsOk(s) && IncsDistinct(s.heaps) && ThreadsOk(s.heaps, s.threads)
    && FreersOk(s.heaps, s.threads) && FreesOk(s.heaps, s.frees)
  }

  // ----- every step keeps it ------------------------------------------------

  function Handles(r: Record): int { if r.handle then 1 else 0 }

  /// Only thread `t` moves, to `th`, and only the record at `a` changes, by as
  /// many references as the thread's own move makes.
  ghost predicate Balanced(s: State, s': State, t: Tid, th: Thread, a: Addr, r: Record) {
    && t < |s.threads| && a in s.heaps
    && s'.threads == s.threads[t := th] && s'.frees == s.frees && s'.heaps == s.heaps[a := r]
    && r.inc == s.heaps[a].inc
    && forall inc: Inc :: ThreadRefs(th, inc) - ThreadRefs(s.threads[t], inc)
         == if inc == r.inc then r.refcount - Handles(r) - (s.heaps[a].refcount - Handles(s.heaps[a])) else 0
  }

  lemma CountsKept(s: State, s': State, t: Tid, th: Thread, a: Addr, r: Record)
    requires CountsOk(s) && IncsDistinct(s.heaps) && Balanced(s, s', t, th, a, r)
    ensures CountsOk(s')
  {
    forall b | b in s'.heaps ensures HeapOk(s', b) {
      assert HeapOk(s, b);
      TotalUpdate(s.threads, t, th, s.heaps[b].inc);
    }
  }

  lemma ThreadsKept(heaps: map<Addr, Record>, threads: seq<Thread>, t: Tid, th: Thread, a: Addr, r: Record)
    requires ThreadsOk(heaps, threads) && t < |threads| && a in heaps && r.inc == heaps[a].inc
    requires ThreadOk(heaps[a := r], th) && heaps[a].refcount > 0
    requires r.handle || (forall u :: 0 <= u < |threads| && u != t ==> !Uses(threads[u], a))
    ensures ThreadsOk(heaps[a := r], threads[t := th])
  {
    forall u | 0 <= u < |threads| && u != t ensures ThreadOk(heaps[a := r], threads[u]) {
      assert ThreadOk(heaps, threads[u]);
    }
  }

  lemma FreersKept(heaps: map<Addr, Record>, threads: seq<Thread>, t: Tid, th: Thread, a: Addr, r: Record)
    requires ThreadsOk(heaps, threads) && FreersOk(heaps, threads) && t < |threads| && a in heaps
    requires heaps[a].refcount > 0 && (r.refcount == 0 ==> IsFreeing(th, a))
    requires !threads[t].pc.Freeing? && (th.pc.Freeing? ==> th.pc.heap == a)
    ensures FreersOk(heaps[a := r], threads[t := th])
  {
    forall u | 0 <= u < |threads| ensures !IsFreeing(threads[u], a) {
      assert ThreadOk(heaps, threads[u]);
    }
    forall b | b in heaps && heaps[a := r][b].refcount == 0 ensures BeingFreed(threads[t := th], b) {
      FreerStays(threads, t, th, a, b);
    }
  }

  lemma FreerStays(threads: seq<Thread>, t: Tid, th: Thread, a: Addr, b: Addr)
    requires t < |threads| && !threads[t].pc.Freeing?
    requires b == a ==> IsFreeing(th, a)
    requires b != a ==> BeingFreed(threads, b)
    ensures BeingFreed(threads[t := th], b)
  {
    if b == a {
      assert IsFreeing(threads[t := th][t], b);
    } else {
      var u :| 0 <= u < |threads| && IsFreeing(threads[u], b);
      assert IsFreeing(threads[t := th][u], b);
    }
  }

  lemma FreesKept(heaps: map<Addr, Record>, frees: seq<nat>, a: Addr, r: Record)
    requires FreesOk(heaps, frees) && a in heaps && r.inc == heaps[a].inc
    ensures FreesOk(heaps[a := r], frees)
  {
    forall i | 0 <= i < |frees| && frees[i] == 0 ensures Placed(heaps[a := r], i) {
      assert Placed(heaps, i);
      var b :| b in heaps && heaps[b].inc == i;
      assert heaps[a := r][b].inc == i;
    }
  }

  /// With the counts kept, what is left is the thread itself, and nobody else
  /// relying on what changed in the record.
  lemma StepKeeps(s: State, s': State, t: Tid, th: Thread, a: Addr, r: Record)
    requires Inv(s) && Balanced(s, s', t, th, a, r)
    requires ThreadOk(s'.heaps, th) && s.heaps[a].refcount > 0 && !s.threads[t].pc.Freeing?
    requires r.refcount == 0 ==> IsFreeing(th, a)
    requires th.pc.Freeing? ==> th.pc.heap == a
    requires r.handle || (forall u :: 0 <= u < |s.threads| && u != t ==> !Uses(s.threads[u], a))
    ensures Inv(s')
  {
    CountsKept(s, s', t, th, a, r);
    ThreadsKept(s.heaps, s.threads, t, th, a, r);
    FreersKept(s.heaps, s.threads, t, th, a, r);
    FreesKept(s.heaps, s.frees, a, r);
  }

  /// No thread refers to an incarnation that no allocated heap has.
  lemma {:induction false} NobodyHas(threads: seq<Thread>, heaps: map<Addr, Record>, inc: Inc)
    requires ThreadsOk(heaps, threads) && !Placed(heaps, inc)
    ensures Total(threads, inc) == 0
  {
    if threads != [] {
      assert ThreadOk(heaps, threads[0]);
      NoRefs(threads[0].reg, inc);
      NobodyHas(threads[1..], heaps, inc);
    }
  }

  lemma NewCounts(s: State, a: Addr)
    requires Inv(s) && a !in s.heaps
    ensures CountsOk(Apply(s, NewHeap(a))) && IncsDistinct(Apply(s, NewHeap(a)).heaps)
  {
    var s' := Apply(s, NewHeap(a));
    var n := |s.frees|;
    forall b | b in s.heaps ensures s.heaps[b].inc < n { assert HeapOk(s, b); }
    NobodyHas(s.threads, s.heaps, n);
    forall b | b in s'.heaps ensures HeapOk(s', b) {
      if b != a { assert HeapOk(s, b); }
    }
  }

  lemma NewThreads(heaps: map<Addr, Record>, threads: seq<Thread>, a: Addr, r: Record)
    requires ThreadsOk(heaps, threads) && a !in heaps
    ensures ThreadsOk(heaps[a := r], threads)
  {
    forall t | 0 <= t < |threads| ensures ThreadOk(heaps[a := r], threads[t]) {
      assert ThreadOk(heaps, threads[t]);
    }
  }

  lemma NewHistory(heaps: map<Addr, Record>, frees: seq<nat>, a: Addr, r: Record)
    requires FreesOk(heaps, frees) && a !in heaps && r.inc == |frees|
    ensures FreesOk(heaps[a := r], frees + [0])
  {
    forall i | 0 <= i <= |frees| && (frees + [0])[i] == 0 ensures Placed(heaps[a := r], i) {
      if i < |frees| {
        assert Placed(heaps, i);
        var b :| b in heaps && heaps[b].inc == i;
        assert heaps[a := r][b].inc == i;
      } else {
        assert heaps[a := r][a].inc == i;
      }
    }
  }

  lemma KeepNew(s: State, a: Addr)
    requires Inv(s) && a !in s.heaps
    ensures Inv(Apply(s, NewHeap(a)))
  {
    var r := Record(|s.frees|, 1, true);
    NewCounts(s, a);
    NewThreads(s.heaps, s.threads, a, r);
    NewHistory(s.heaps, s.frees, a, r);
  }

  lemma KeepGet(s: State, t: Tid, a: Addr)
    requires Inv(s) && Enabled(s, Get(t, a))
    ensures Inv(DoGet(s, t, a))
  {
    var th := s.threads[t];
    if Find(th.reg, a) == |th.reg| {
      var s' := DoGet(s, t, a);
      assert HeapOk(s, a) && ThreadOk(s.heaps, th);
      StepKeeps(s, s', t, s'.threads[t], a, s'.heaps[a]);
    }
  }

  /// A move of one thread that neither makes nor drops a reference.
  lemma KeepSameHeaps(s: State, t: Tid, th: Thread)
    requires Inv(s) && t < |s.threads| && ThreadOk(s.heaps, th)
    requires forall inc: Inc :: ThreadRefs(th, inc) == ThreadRefs(s.threads[t], inc)
    requires !s.threads[t].pc.Freeing? && !th.pc.Freeing?
    ensures Inv(SetThread(s, t, th))
  {
    var s' := SetThread(s, t, th);
    assert CountsOk(s') by {
      forall b | b in s.heaps ensures HeapOk(s', b) {
        assert HeapOk(s, b);
        TotalUpdate(s.threads, t, th, s.heaps[b].inc);
      }
    }
    forall b | b in s.heaps && s.heaps[b].refcount == 0 ensures BeingFreed(s'.threads, b) {
      assert BeingFreed(s.threads, b);
      var u :| 0 <= u < |s.threads| && IsFreeing(s.threads[u], b);
      assert IsFreeing(s'.threads[u], b);
    }
  }

  lemma KeepLink(s: State, t: Tid)
    requires Inv(s) && Enabled(s, Link(t))
    ensures Inv(Apply(s, Link(t)))
  {
    var th := s.threads[t];
    assert ThreadOk(s.heaps, th);
    assert ([th.pc.h] + th.reg)[1..] == th.reg;
    KeepSameHeaps(s, t, Thread([th.pc.h] + th.reg, Idle));
  }

  lemma KeepExit(s: State, t: Tid)
    requires Inv(s) && Enabled(s, Exit(t))
    ensures Inv(Apply(s, Exit(t)))
  {
    assert ThreadOk(s.heaps, s.threads[t]);
    KeepSameHeaps(s, t, s.threads[t].(pc := Exiting));
  }

  lemma KeepExitNext(s: State, t: Tid)
    requires Inv(s) && Enabled(s, ExitNext(t))
    ensures Inv(Apply(s, ExitNext(t)))
  {
    var reg := s.threads[t].reg;
    assert ThreadOk(s.heaps, s.threads[t]);
    KeepSameHeaps(s, t, Thread(reg[1..], Releasing(reg[0].heap, reg[0].inc, ToExit)));
  }

  lemma KeepDelete(s: State, t: Tid, a: Addr)
    requires Inv(s) && Enabled(s, Delete(t, a))
    ensures Inv(DoDelete(s, t, a))
  {
    var th := s.threads[t];
    var s' := DoDelete(s, t, a);
    var i := Find(th.reg, a);
    assert ThreadOk(s.heaps, th) && HeapOk(s, a);
    DeleteRefs(th, i, s'.threads[t], a, s.heaps[a].inc);
    StepKeeps(s, s', t, s'.threads[t], a, s'.heaps[a]);
  }

  lemma DeleteRefs(th: Thread, i: nat, th': Thread, a: Addr, inc: Inc)
    requires i <= |th.reg| && th.pc.Idle?
    requires th' == if i < |th.reg| then
                      Thread(Without(th.reg, i), Releasing(th.reg[i].heap, th.reg[i].inc, ToAlive(a, inc)))
                    else th.(pc := Releasing(a, inc, ToIdle))
    ensures forall k: Inc :: ThreadRefs(th', k) == ThreadRefs(th, k) + if k == inc then 1 else 0
  {
    forall k: Inc ensures ThreadRefs(th', k) == ThreadRefs(th, k) + if k == inc then 1 else 0 {
      if i < |th.reg| { RegWithout(th.reg, i, k); }
    }
  }

  lemma KeepRelease(s: State, t: Tid)
    requires Inv(s) && Enabled(s, Release(t))
    ensures Inv(DoRelease(s, t))
  {
    var th := s.threads[t];
    var a := th.pc.heap;
    var s' := DoRelease(s, t);
    assert ThreadOk(s.heaps, th) && HeapOk(s, a);
    TotalUpdate(s.threads, t, th, th.pc.inc);
    ReleaseRefs(th, s'.threads[t], s.heaps[a].refcount == 1);
    assert Balanced(s, s', t, s'.threads[t], a, s'.heaps[a]);
    StepKeeps(s, s', t, s'.threads[t], a, s'.heaps[a]);
  }

  lemma ReleaseRefs(th: Thread, th': Thread, last: bool)
    requires th.pc.Releasing?
    requires th' == th.(pc := if last then Freeing(th.pc.heap, th.pc.inc, th.pc.next) else After(th.pc.next))
    ensures forall k: Inc :: ThreadRefs(th', k) == ThreadRefs(th, k) - if k == th.pc.inc then 1 else 0
  {
  }

  /// Once the count is 0 nothing leads to the heap any more.
  lemma NobodyPoints(s: State, a: Addr, u: Tid)
    requires Inv(s) && a in s.heaps && s.heaps[a].refcount == 0 && u < |s.threads|
    ensures forall i :: 0 <= i < |s.threads[u].reg| ==> s.threads[u].reg[i].heap != a
    ensures var p := s.threads[u].pc;
      && (p.Linking? ==> p.h.heap != a) && (p.Releasing? ==> p.heap != a)
      && ((p.Releasing? || p.Freeing?) && p.next.ToAlive? ==> p.next.heap != a)
  {
    assert HeapOk(s, a) && ThreadOk(s.heaps, s.threads[u]);
    TotalUpdate(s.threads, u, s.threads[u], s.heaps[a].inc);
    forall i | 0 <= i < |s.threads[u].reg| ensures s.threads[u].reg[i].heap != a {
      SomeRef(s.threads[u].reg, i);
    }
  }

  /// A thread that does not lead to the heap does not miss it.
  lemma FreeThread(heaps: map<Addr, Record>, a: Addr, th: Thread)
    requires ThreadOk(heaps, th)
    requires forall i :: 0 <= i < |th.reg| ==> th.reg[i].heap != a
    requires (th.pc.Linking? ==> th.pc.h.heap != a) && (th.pc.Releasing? || th.pc.Freeing? ==> th.pc.heap != a)
    requires (th.pc.Releasing? || th.pc.Freeing?) && th.pc.next.ToAlive? ==> th.pc.next.heap != a
    ensures ThreadOk(heaps - {a}, th)
  {
  }

  lemma FreeThreads(s: State, t: Tid)
    requires Inv(s) && Enabled(s, Free(t))
    ensures ThreadsOk(DoFree(s, t).heaps, DoFree(s, t).threads)
  {
    var th := s.threads[t];
    var a := th.pc.heap;
    var th' := th.(pc := After(th.pc.next));
    var threads := s.threads[t := th'];
    assert ThreadOk(s.heaps, th);
    forall u | 0 <= u < |threads| ensures ThreadOk(s.heaps - {a}, threads[u]) {
      assert ThreadOk(s.heaps, s.threads[u]);
      NobodyPoints(s, a, u);
      if u != t {
        assert IsFreeing(th, a) && !IsFreeing(s.threads[u], a);
        FreeThread(s.heaps, a, s.threads[u]);
      } else {
        FreeThread(s.heaps, a, th');
      }
    }
  }

  lemma FreeFreers(s: State, t: Tid)
    requires Inv(s) && Enabled(s, Free(t))
    ensures FreersOk(DoFree(s, t).heaps, DoFree(s, t).threads)
  {
    var s' := DoFree(s, t);
    assert !s'.threads[t].pc.Freeing?;
    forall b | b in s'.heaps && s'.heaps[b].refcount == 0 ensures BeingFreed(s'.threads, b) {
      assert BeingFreed(s.threads, b);
      var u :| 0 <= u < |s.threads| && IsFreeing(s.threads[u], b);
      assert IsFreeing(s'.threads[u], b);
    }
  }

  lemma KeepFree(s: State, t: Tid)
    requires Inv(s) && Enabled(s, Free(t))
    ensures Inv(DoFree(s, t))
  {
    var th := s.threads[t];
    var a := th.pc.heap;
    var s' := DoFree(s, t);
    assert ThreadOk(s.heaps, th) && HeapOk(s, a);
    FreeThreads(s, t);
    FreeFreers(s, t);
    FreeCounts(s, t);
    FreeHistory(s.heaps, s.frees, a);
  }

  lemma FreeCount(s: State, t: Tid, b: Addr)
    requires t < |s.threads| && ThreadOk(s.heaps, s.threads[t]) && Enabled(s, Free(t))
    requires IncsDistinct(s.heaps) && b in s.heaps && HeapOk(s, b) && b != s.threads[t].pc.heap
    ensures HeapOk(DoFree(s, t), b)
  {
    var th := s.threads[t];
    assert s.heaps[b].inc != th.pc.inc;
    TotalUpdate(s.threads, t, th.(pc := After(th.pc.next)), s.heaps[b].inc);
  }

  lemma FreeCounts(s: State, t: Tid)
    requires Inv(s) && Enabled(s, Free(t))
    ensures CountsOk(DoFree(s, t))
  {
    assert ThreadOk(s.heaps, s.threads[t]);
    var s' := DoFree(s, t);
    forall b | b in s'.heaps ensures HeapOk(s', b) {
      assert HeapOk(s, b);
      FreeCount(s, t, b);
    }
  }

  lemma FreeHistory(heaps: map<Addr, Record>, frees: seq<nat>, a: Addr)
    requires FreesOk(heaps, frees) && IncsDistinct(heaps) && a in heaps && heaps[a].inc < |frees|
    requires frees[heaps[a].inc] == 0
    ensures FreesOk(heaps - {a}, frees[heaps[a].inc := frees[heaps[a].inc] + 1])
  {
    var frees' := frees[heaps[a].inc := frees[heaps[a].inc] + 1];
    forall i | 0 <= i < |frees'| && frees'[i] == 0 ensures Placed(heaps - {a}, i) {
      assert Placed(heaps, i);
      var b :| b in heaps && heaps[b].inc == i;
      assert b in heaps - {a};
    }
  }

  lemma InvStep(s: State, step: Step)
    requires Inv(s) && Enabled(s, step)
    ensures Inv(Apply(s, step))
  {
    match step
    case NewHeap(a) => KeepNew(s, a);
    case Get(t, a) => KeepGet(s, t, a);
    case Link(t) => KeepLink(s, t);
    case Delete(t, a) => KeepDelete(s, t, a);
    case Exit(t) => KeepExit(s, t);
    case ExitNext(t) => KeepExitNext(s, t);
    case Release(t) => KeepRelease(s, t);
    case Free(t) => KeepFree(s, t);
  }

  lemma {:induction false} InvRun(s: State, steps: seq<Step>, s': State)
    requires Inv(s) && Run(s, steps, s')
    ensures Inv(s')
    decreases |steps|
  {
    if steps != [] {
      InvStep(s, steps[0]);
      InvRun(Apply(s, steps[0]), steps[1..], s');
    }
  }

  // ----- what every run guarantees ------------------------------------------

  ghost predicate Reachable(s: State) {
    exists s0: State, steps: seq<Step> :: Init(s0) && Run(s0, steps, s)
  }

  lemma ReachableInv(s: State)
    requires Reachable(s)
    ensures Inv(s)
  {
    var s0: State, steps: seq<Step> :| Init(s0) && Run(s0, steps, s);
    InvRun(s0, steps, s);
  }

  /// No heap is freed twice, and one is freed exactly when it is no longer
  /// allocated; while it is, its count is the handle plus all its theaps, and
  /// once these are gone a thread is about to free it.
  lemma FreedExactlyOnce(s: State, inc: Inc)
    requires Reachable(s) && inc < |s.frees|
    ensures s.frees[inc] <= 1
    ensures s.frees[inc] == 0 <==> Placed(s.heaps, inc)
    ensures s.frees[inc] == 1 ==> Total(s.threads, inc) == 0
    ensures forall a :: a in s.heaps && s.heaps[a].inc == inc ==>
              s.heaps[a].refcount == Total(s.threads, inc) + Handles(s.heaps[a])
    ensures Total(s.threads, inc) == 0 && (forall a :: a in s.heaps && s.heaps[a].inc == inc ==> !s.heaps[a].handle)
      ==> s.frees[inc] == 1 || exists a :: a in s.heaps && s.heaps[a].inc == inc && BeingFreed(s.threads, a)
  {
    ReachableInv(s);
    if Placed(s.heaps, inc) {
      var a :| a in s.heaps && s.heaps[a].inc == inc;
      assert HeapOk(s, a);
    } else {
      NobodyHas(s.threads, s.heaps, inc);
    }
  }

  /// A heap is given back only with the handle gone and no theap left.
  lemma FreedOnlyWhenUnreferenced(s: State, t: Tid)
    requires Reachable(s) && Enabled(s, Free(t))
    ensures var a := s.threads[t].pc.heap;
      && a in s.heaps && s.heaps[a].inc == s.threads[t].pc.inc
      && !s.heaps[a].handle && Total(s.threads, s.heaps[a].inc) == 0
  {
    ReachableInv(s);
    assert ThreadOk(s.heaps, s.threads[t]);
    assert HeapOk(s, s.threads[t].pc.heap);
  }

  /// The theap that `theap_for` finds by address was made for this very heap,
  /// and the thread has no other for it.
  lemma FoundTheapIsRight(s: State, t: Tid, a: Addr)
    requires Reachable(s) && Enabled(s, Get(t, a))
    ensures var reg := s.threads[t].reg;
      && (Find(reg, a) < |reg| ==> reg[Find(reg, a)].inc == s.heaps[a].inc)
      && RegRefs(reg, s.heaps[a].inc) == if Find(reg, a) < |reg| then 1 else 0
  {
    ReachableInv(s);
    var reg := s.threads[t].reg;
    var i := Find(reg, a);
    assert ThreadOk(s.heaps, s.threads[t]);
    if i < |reg| {
      RegWithout(reg, i, s.heaps[a].inc);
      NoRefs(Without(reg, i), s.heaps[a].inc);
    } else {
      NoRefs(reg, s.heaps[a].inc);
    }
  }

  /// A count of 0 is always about to be acted on: no heap is forgotten.
  lemma ZeroIsBeingFreed(s: State, a: Addr)
    requires Reachable(s) && a in s.heaps
    ensures s.heaps[a].refcount == 0 <==> BeingFreed(s.threads, a)
  {
    ReachableInv(s);
    if BeingFreed(s.threads, a) {
      var t :| 0 <= t < |s.threads| && IsFreeing(s.threads[t], a);
      assert ThreadOk(s.heaps, s.threads[t]);
    }
  }
}
