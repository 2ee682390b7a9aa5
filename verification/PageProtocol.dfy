/// One page incarnation, from carve to release, as a step machine over any
/// number of threads. Every atomic operation on `xthread_free`, `xthread_id`
/// or the abandoned registry is one step; owner-only list work between two
/// atomic operations is split into one step per list operation.
///
/// The ownership token is the low bit of the `xthread_free` head (`owned`).
/// Which thread believes it holds the page is kept apart from the token, in
/// that thread's own program counter, so that "token set iff exactly one
/// holder" is a theorem and not part of the model.

module PageProtocol {

  type Block = nat
  type Tid = nat

  /// The thread-id part of `xthread_id` (flag bits masked off).
  datatype Stamp = Owner(tid: Tid) | Abandoned | AbandonedMapped

  /// Where a full collect returns to.
  datatype Return = ToOwn | ToExitTest | ToExitRetest | ToMtTest | ToMtRetest

  /// abandon_owned_page, after its first collect.
  datatype ExitPc = Test | Decide | Retest | Register | StampMapped | StampFull | Unown

  /// try_reclaim: claimed, registry bit cleared, owner stamped.
  datatype ReclaimPc = Claimed | Cleared | Stamped

  /// free_try_collect_mt.
  datatype MtPc =
    | Partly(pushed: Block) | IsEmpty | Unmap | Release
    | IsFull | IsFullAgain | Reregister | Restamp | TryUnown

  /// What one thread is doing with the page.
  datatype Pc =
    | Out                                          // no claim on the page
    | Pushing(b: Block)                            // cross-thread free, before the CAS
    | Own                                          // page sits in this thread's bin queue
    | Capture(ret: Return)                         // collect, before the CAS on the stack
    | Splice(chain: seq<Block>, ret: Return)       // collect, walking the captured stack
    | Exit(e: ExitPc)
    | Reclaiming(r: ReclaimPc)
    | Mt(m: MtPc)

  /// Constants of the page.
  datatype Config = Config(
    reserved: nat,            // blocks the page can ever hold
    batch: nat,               // blocks one extend threads at most
    blockSize: nat,
    huge: bool)               // one block, its header off the slices

  const SMALL_SIZE_MAX: nat := 1024
  const ZERO_VIA_PAGE_MIN: nat := 4096
  const LINK_SIZE: nat := 8

  /// Block size within the partial-collect limit.
  predicate Small(c: Config) { c.blockSize <= SMALL_SIZE_MAX }

  /// The block lists, and who has which block.
  datatype Lists = Lists(
    free: seq<Block>,
    local: seq<Block>,
    xfree: seq<Block>,        // xthread_free stack, newest first
    used: int,
    capacity: nat,
    live: multiset<Block>)    // blocks in the program's hands

  /// The shared words other than the stack itself.
  datatype Shared = Shared(
    owned: bool,              // low bit of the xthread_free head
    stamp: Stamp,
    interior: bool,           // HAS_INTERIOR_POINTERS flag of xthread_id
    mapped: bool,             // this page's bit in the abandoned registry
    stranded: bool,           // history: a registration found no registry memory
    releases: nat)            // history: times the slices went back to the arena

  /// Byte `off` of block `block`.
  datatype Byte = Byte(block: Block, off: nat)

  datatype Memory = Memory(
    freeIsZero: bool,
    dirty: set<Byte>)         // bytes that may be non-zero

  /// What an allocation asks for.
  datatype Request = Plain | Zeroed(size: nat)

  datatype State = State(
    cfg: Config, q: Lists, sh: Shared, mem: Memory,
    inside: set<Block>,       // live blocks whose user pointer is interior
    pc: seq<Pc>)

  datatype Step =
    | Alloc(t: Tid, request: Request)
    | MarkInterior(t: Tid, b: Block)
    | Write(b: Block, bytes: set<nat>)    // the offsets left non-zero
    | FreeLocal(t: Tid, b: Block)
    | FreeCross(t: Tid, b: Block)
    | Extend(t: Tid)
    | StartCollect(t: Tid)
    | Retire(t: Tid)
    | StartExit(t: Tid)
    | Reclaim(t: Tid)
    | Advance(t: Tid, registryOk: bool)   // next action of a thread mid-operation

  // ----- helpers ------------------------------------------------------------

  function Upto(lo: nat, hi: nat): (r: seq<Block>)
    requires lo <= hi
    ensures |r| == hi - lo
    ensures forall i :: 0 <= i < |r| ==> r[i] == lo + i
    decreases hi - lo
  {
    if lo == hi then [] else [lo] + Upto(lo + 1, hi)
  }

  function IndexOf(s: seq<Block>, b: Block): (i: nat)
    requires b in s
    ensures i < |s| && s[i] == b
  {
    if s[0] == b then 0 else 1 + IndexOf(s[1..], b)
  }

  /// Blocks a thread keeps only in its own variables.
  function Carried(p: Pc): seq<Block> {
    match p
    case Pushing(b) => [b]
    case Splice(chain, _) => chain
    case _ => []
  }

  /// The thread acts as the page's holder.
  predicate Holds(p: Pc) { !p.Out? && !p.Pushing? }

  predicate AtRest(p: Pc) { p.Out? || p.Own? }

  function At(s: State, t: Tid, p: Pc): State
    requires t < |s.pc|
  {
    s.(pc := s.pc[t := p])
  }

  function Resume(ret: Return): Pc {
    match ret
    case ToOwn => Own
    case ToExitTest => Exit(Test)
    case ToExitRetest => Exit(Retest)
    case ToMtTest => Mt(IsEmpty)
    case ToMtRetest => Mt(IsFullAgain)
  }

  // ----- list operations ----------------------------------------------------

  /// Page::pop.
  function Pop(q: Lists): Lists
    requires q.free != []
  {
    q.(free := q.free[1..], used := q.used + 1, live := q.live + multiset{q.free[0]})
  }

  /// Page::free_local.
  function Push(q: Lists, b: Block): Lists {
    q.(live := q.live - multiset{b}, local := [b] + q.local, used := q.used - 1)
  }

  function BatchSize(c: Config, q: Lists): nat
    requires q.capacity <= c.reserved
  {
    if c.reserved - q.capacity < c.batch then c.reserved - q.capacity else c.batch
  }

  /// Page::extend_free.
  function Grow(c: Config, q: Lists): Lists
    requires q.capacity <= c.reserved
  {
    var n := BatchSize(c, q);
    q.(free := Upto(q.capacity, q.capacity + n) + q.free, capacity := q.capacity + n)
  }

  /// One iteration of the splice loop of Page::collect.
  function SpliceHead(q: Lists, b: Block): Lists {
    q.(free := [b] + q.free, used := q.used - 1)
  }

  /// Step 2 of Page::collect: adopt or append the deferred local frees.
  function Adopt(q: Lists): Lists {
    q.(free := q.local + q.free, local := [])
  }

  /// The blocks queued below `b`, which collect_partly migrates.
  function Below(q: Lists, b: Block): seq<Block>
    requires b in q.xfree
  {
    q.xfree[IndexOf(q.xfree, b) + 1..]
  }

  /// Page::collect_partly, up to its test of `used`.
  function TakeBelow(q: Lists, b: Block): Lists
    requires b in q.xfree
  {
    var rest := Below(q, b);
    if rest == [] then q
    else
      var local := rest + q.local;
      q.(xfree := q.xfree[..IndexOf(q.xfree, b) + 1], used := q.used - |rest|,
         free := if q.free == [] then local else q.free,
         local := if q.free == [] then [] else local)
  }

  // ----- contents -----------------------------------------------------------

  /// The first words of the blocks of `s`, where the list links are.
  function LinkWords(s: seq<Block>): (r: set<Byte>)
    ensures forall x :: x in r <==> x.block in s && x.off < LINK_SIZE
  {
    if s == [] then {} else LinkWord(s[0]) + LinkWords(s[1..])
  }

  function LinkWord(b: Block): (r: set<Byte>)
    ensures forall x :: x in r <==> x.block == b && x.off < LINK_SIZE
  {
    {Byte(b, 0), Byte(b, 1), Byte(b, 2), Byte(b, 3), Byte(b, 4), Byte(b, 5), Byte(b, 6), Byte(b, 7)}
  }

  /// Links are written into the first words of the blocks of `s`.
  function Linked(mem: Memory, s: seq<Block>): Memory { mem.(dirty := mem.dirty + LinkWords(s)) }

  /// write_bytes of the first `n` bytes of block `b` with 0.
  function Memset(mem: Memory, b: Block, n: nat): Memory {
    mem.(dirty := set x | x in mem.dirty && !(x.block == b && x.off < n))
  }

  /// Page::zero_block: on a page known zero only the link word, and nothing at
  /// all on a huge one; else the whole block.
  function ZeroBlock(c: Config, mem: Memory, b: Block): Memory {
    if !mem.freeIsZero then Memset(mem, b, c.blockSize)
    else if c.huge then mem
    else Memset(mem, b, LINK_SIZE)
  }

  /// alloc_zeroed: larger requests go by the page's zero state, others clear
  /// just the bytes asked for.
  function ServeZeroed(c: Config, mem: Memory, b: Block, size: nat): Memory {
    if size > ZERO_VIA_PAGE_MIN then ZeroBlock(c, mem, b) else Memset(mem, b, size)
  }

  /// The program leaves exactly the bytes at `offsets` of its block non-zero.
  function Written(mem: Memory, b: Block, offsets: set<nat>): (r: Memory)
    ensures forall x :: x in r.dirty <==> if x.block == b then x.off in offsets else x in mem.dirty
  {
    mem.(dirty := (set x | x in mem.dirty && x.block != b) + (set o | o in offsets :: Byte(b, o)))
  }

  // ----- steps of a thread in the middle of an operation --------------------

  /// The CAS of thread_free_push: publish as owned; a head that was unowned
  /// makes this thread the claimer.
  function DoPush(s: State, t: Tid, b: Block): State
    requires t < |s.pc|
  {
    s.(q := s.q.(xfree := [b] + s.q.xfree),
       sh := s.sh.(owned := true),
       mem := Linked(s.mem, [b]),
       pc := s.pc[t := if s.sh.owned then Out
                       else if Small(s.cfg) then Mt(Partly(b)) else Capture(ToMtTest)])
  }

  /// Step 1 of Page::collect: the CAS that takes the whole stack.
  function DoCapture(s: State, t: Tid, ret: Return): State
    requires t < |s.pc|
  {
    s.(q := s.q.(xfree := []),
       mem := s.mem.(freeIsZero := s.mem.freeIsZero && s.q.xfree == []),
       pc := s.pc[t := Splice(s.q.xfree, ret)])
  }

  function DoSplice(s: State, t: Tid, chain: seq<Block>, ret: Return): State
    requires t < |s.pc|
  {
    if chain != [] then
      s.(q := SpliceHead(s.q, chain[0]),
         mem := Linked(s.mem, [chain[0]]),
         pc := s.pc[t := Splice(chain[1..], ret)])
    else
      s.(q := Adopt(s.q),
         mem := s.mem.(freeIsZero := s.mem.freeIsZero && s.q.local == []),
         pc := s.pc[t := Resume(ret)])
  }

  function DoRegister(sh: Shared, ok: bool): Shared {
    if ok then sh.(mapped := true) else sh.(stranded := true)
  }

  function DoRelease(s: State, t: Tid): State
    requires t < |s.pc|
  {
    s.(sh := s.sh.(releases := s.sh.releases + 1), pc := s.pc[t := Out])
  }

  predicate IsFullNow(s: State) { s.q.free == [] && s.q.capacity >= s.cfg.reserved }

  function DoExit(s: State, t: Tid, e: ExitPc, ok: bool): State
    requires t < |s.pc|
  {
    match e
    case Test => if s.q.used == 0 then DoRelease(s, t) else At(s, t, Exit(Decide))
    case Decide => At(s, t, if s.q.free != [] then Exit(Register) else Capture(ToExitRetest))
    case Retest => At(s, t, Exit(if IsFullNow(s) then StampFull else Register))
    case Register => At(s.(sh := DoRegister(s.sh, ok)), t, Exit(StampMapped))
    case StampMapped => At(s.(sh := s.sh.(stamp := AbandonedMapped)), t, Exit(Unown))
    case StampFull => At(s.(sh := s.sh.(stamp := Abandoned)), t, Exit(Unown))
    case Unown => At(s.(sh := s.sh.(owned := false)), t, Out)
  }

  function DoReclaim(s: State, t: Tid, r: ReclaimPc): State
    requires t < |s.pc|
  {
    match r
    case Claimed => At(s.(sh := s.sh.(mapped := false)), t, Reclaiming(Cleared))
    case Cleared => At(s.(sh := s.sh.(stamp := Owner(t))), t, Reclaiming(Stamped))
    case Stamped => At(s.(mem := s.mem.(freeIsZero := false)), t, Capture(ToOwn))
  }

  function DoPartly(s: State, t: Tid, b: Block): State
    requires t < |s.pc| && b in s.q.xfree
  {
    var q := TakeBelow(s.q, b);
    s.(q := q,
       mem := Linked(s.mem, s.q.xfree),
       pc := s.pc[t := if q.used == 1 then Capture(ToMtTest) else Mt(IsEmpty)])
  }

  function DoMt(s: State, t: Tid, m: MtPc, ok: bool): State
    requires t < |s.pc|
    requires m.Partly? ==> m.pushed in s.q.xfree
  {
    match m
    case Partly(b) => DoPartly(s, t, b)
    case IsEmpty => At(s, t, Mt(if s.q.used == 0 then Unmap else IsFull))
    case Unmap =>
      At(s.(sh := s.sh.(mapped := s.sh.mapped && !s.sh.stamp.AbandonedMapped?)), t, Mt(Release))
    case Release => DoRelease(s, t)
    case IsFull =>
      At(s, t, if s.q.free == [] then Capture(ToMtRetest)
               else Mt(if s.sh.stamp.AbandonedMapped? then TryUnown else Reregister))
    case IsFullAgain =>
      At(s, t, Mt(if IsFullNow(s) || s.sh.stamp.AbandonedMapped? then TryUnown else Reregister))
    case Reregister => At(s.(sh := DoRegister(s.sh, ok)), t, Mt(Restamp))
    case Restamp => At(s.(sh := s.sh.(stamp := AbandonedMapped)), t, Mt(TryUnown))
    case TryUnown =>
      // The CAS (NULL, owned) -> (NULL, unowned).
      if s.q.xfree == [] && s.sh.owned then At(s.(sh := s.sh.(owned := false)), t, Out)
      else At(s, t, Capture(ToMtTest))
  }

  predicate CanAdvance(s: State, t: Tid) {
    && t < |s.pc|
    && !AtRest(s.pc[t])
    && (s.pc[t].Mt? && s.pc[t].m.Partly? ==> s.pc[t].m.pushed in s.q.xfree)
  }

  function DoAdvance(s: State, t: Tid, ok: bool): State
    requires CanAdvance(s, t)
  {
    match s.pc[t]
    case Pushing(b) => DoPush(s, t, b)
    case Capture(ret) => DoCapture(s, t, ret)
    case Splice(chain, ret) => DoSplice(s, t, chain, ret)
    case Exit(e) => DoExit(s, t, e, ok)
    case Reclaiming(r) => DoReclaim(s, t, r)
    case Mt(m) => DoMt(s, t, m, ok)
  }

  // ----- operations of a thread at rest -------------------------------------

  /// Page::pop, and the zeroing of a zeroed request.
  function DoAlloc(s: State, request: Request): State
    requires s.q.free != []
  {
    var b := s.q.free[0];
    s.(q := Pop(s.q), mem := if request.Zeroed? then ServeZeroed(s.cfg, s.mem, b, request.size) else s.mem)
  }

  /// What the code checks, or its callers promise, before each action. No
  /// action asks whether the page was released: that none can then happen is
  /// proved (`ReleaseIsFinal`).
  predicate Enabled(s: State, step: Step) {
    match step
    case Alloc(t, request) =>
      && t < |s.pc| && s.pc[t].Own? && s.q.free != []
      && (request.Zeroed? ==> request.size <= s.cfg.blockSize)
    case MarkInterior(t, b) => t < |s.pc| && s.pc[t].Own? && b in s.q.live
    case Write(b, bytes) => b in s.q.live && forall o :: o in bytes ==> o < s.cfg.blockSize
    case FreeLocal(t, b) =>
      t < |s.pc| && AtRest(s.pc[t]) && b in s.q.live && s.sh.stamp == Owner(t)
    case FreeCross(t, b) =>
      t < |s.pc| && AtRest(s.pc[t]) && b in s.q.live && s.sh.stamp != Owner(t)
    case Extend(t) =>
      t < |s.pc| && s.pc[t].Own? && s.q.free == [] && s.q.capacity < s.cfg.reserved
    case StartCollect(t) => t < |s.pc| && s.pc[t].Own?
    case Retire(t) => t < |s.pc| && s.pc[t].Own? && s.q.used == 0
    case StartExit(t) => t < |s.pc| && s.pc[t].Own?
    case Reclaim(t) => t < |s.pc| && s.pc[t].Out? && s.sh.mapped && !s.sh.owned
    case Advance(t, _) => CanAdvance(s, t)
  }

  function Apply(s: State, step: Step): State
    requires Enabled(s, step)
  {
    match step
    case Alloc(_, request) => DoAlloc(s, request)
    case MarkInterior(_, b) => s.(sh := s.sh.(interior := true), inside := s.inside + {b})
    case Write(b, bytes) => s.(mem := Written(s.mem, b, bytes))
    case FreeLocal(_, b) =>
      s.(q := Push(s.q, b), inside := s.inside - {b}, mem := Linked(s.mem, [b]))
    case FreeCross(t, b) =>
      s.(q := s.q.(live := s.q.live - multiset{b}), inside := s.inside - {b}, pc := s.pc[t := Pushing(b)])
    case Extend(_) =>
      var carved := Upto(s.q.capacity, s.q.capacity + BatchSize(s.cfg, s.q));
      s.(q := Grow(s.cfg, s.q), mem := Linked(s.mem, carved))
    case StartCollect(t) => At(s, t, Capture(ToOwn))
    case Retire(t) => DoRelease(s, t)
    case StartExit(t) => At(s, t, Capture(ToExitTest))
    case Reclaim(t) => At(s.(sh := s.sh.(owned := true)), t, Reclaiming(Claimed))
    case Advance(t, ok) => DoAdvance(s, t, ok)
  }

  // ----- runs ---------------------------------------------------------------

  /// A page just carved by thread `t` (`Page::init`): its slices may be known zero.
  ghost predicate Init(s: State, t: Tid) {
    && t < |s.pc|
    && s.pc[t].Own? && (forall u :: 0 <= u < |s.pc| && u != t ==> s.pc[u].Out?)
    && s.q == Lists([], [], [], 0, 0, multiset{})
    && s.sh == Shared(true, Owner(t), false, false, false, 0)
    && (s.mem.freeIsZero ==> forall x :: x in s.mem.dirty ==> x.off < LINK_SIZE)
    && s.inside == {}
    && s.cfg.batch >= 1 && !s.cfg.huge
  }

  /// A huge page (`Page::init_huge` + `serve_huge`): one block, already served.
  ghost predicate InitHuge(s: State, t: Tid) {
    && t < |s.pc|
    && s.pc[t].Own? && (forall u :: 0 <= u < |s.pc| && u != t ==> s.pc[u].Out?)
    && s.q == Lists([], [], [], 1, 1, multiset{0})
    && s.sh == Shared(true, Owner(t), false, false, false, 0)
    && (s.mem.freeIsZero ==> s.mem.dirty == {})
    && s.inside == {}
    && s.cfg.reserved == 1 && s.cfg.batch >= 1 && s.cfg.huge && !Small(s.cfg)
  }

  /// The state after doing `steps` from `s`, if every one is enabled in turn.
  ghost predicate Run(s: State, steps: seq<Step>, s': State)
    decreases |steps|
  {
    if steps == [] then s' == s
    else Enabled(s, steps[0]) && Run(Apply(s, steps[0]), steps[1..], s')
  }

  lemma RunFrom(s: State, step: Step, rest: seq<Step>, s': State)
    requires Enabled(s, step) && Run(Apply(s, step), rest, s')
    ensures Run(s, [step] + rest, s')
  {
    assert ([step] + rest)[1..] == rest;
  }

  lemma {:induction false} RunJoins(s: State, xs: seq<Step>, s1: State, ys: seq<Step>, s2: State)
    requires Run(s, xs, s1) && Run(s1, ys, s2)
    ensures Run(s, xs + ys, s2)
    decreases |xs|
  {
    if xs == [] {
      assert xs + ys == ys;
    } else {
      RunJoins(Apply(s, xs[0]), xs[1..], s1, ys, s2);
      RunFrom(s, xs[0], xs[1..] + ys, s2);
      HeadJoins(xs, ys);
    }
  }

  lemma HeadJoins<T>(xs: seq<T>, ys: seq<T>)
    requires xs != []
    ensures [xs[0]] + (xs[1..] + ys) == xs + ys
  {
  }
}
