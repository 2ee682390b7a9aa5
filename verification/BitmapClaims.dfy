/// The bitmap shared by any number of threads, one compare-and-swap on one word
/// per step: claims of several words or chunks, their rollback, and releases.

module BitmapClaims {
  import opened Chunk

  /// A run of bits.
  datatype Run = Run(idx: nat, n: nat)

  datatype Pc =
    | Idle
    | Clearing(run: Run, k: nat)      // the first k pieces are cleared
    | RollingBack(todo: seq<Run>)     // cleared pieces still to be set again
    | Setting(run: Run, k: nat)       // releasing: the first k pieces are set

  datatype State = State(free: set<nat>, held: seq<Run>, pc: seq<Pc>)

  datatype Step =
    | StartClaim(t: nat, run: Run)
    | StartRelease(t: nat, i: nat)    // give back the i-th completed claim
    | Cas(t: nat)

  // ----- pieces -------------------------------------------------------------

  /// Where the k-th piece of a run starts: pieces are cut at word boundaries.
  function Cut(r: Run, k: nat): (c: nat)
    ensures r.idx <= c <= r.idx + r.n
  {
    Min(PieceStart(r.idx, k), r.idx + r.n)
  }

  function Piece(r: Run, k: nat): (p: Run)
    ensures p.idx / 64 == r.idx / 64 + k || p.n == 0
    ensures p.n > 0 ==> p.idx / 64 == (p.idx + p.n - 1) / 64
  {
    Run(Cut(r, k), Cut(r, k + 1) - Cut(r, k))
  }

  predicate Whole(r: Run, k: nat) { Cut(r, k) == r.idx + r.n }

  /// The first piece of the chunk that the k-th piece lies in.
  function ChunkFirst(r: Run, k: nat): (j: nat)
    ensures j <= k
  {
    var chunk, first := Cut(r, k) / 512 * 8, r.idx / 64;
    if chunk <= first then 0 else Min(chunk - first, k)
  }

  lemma PieceChunk(r: Run, i: nat)
    requires !Whole(r, i)
    ensures Cut(r, i) / 512 == (r.idx / 64 + i) / 8
  {
  }

  /// It is so: from there to the k-th the pieces lie in one chunk, those before
  /// in earlier ones.
  lemma ChunkFirstIs(r: Run, k: nat, i: nat)
    requires !Whole(r, k) && i <= k
    ensures if i < ChunkFirst(r, k) then Cut(r, i) / 512 < Cut(r, k) / 512 else Cut(r, i) / 512 == Cut(r, k) / 512
  {
    PieceChunk(r, i);
    PieceChunk(r, k);
  }

  function Pieces(r: Run, lo: nat, hi: nat): seq<Run>
    requires lo <= hi
    decreases hi - lo
  {
    if lo == hi then [] else [Piece(r, lo)] + Pieces(r, lo + 1, hi)
  }

  /// Rollback after the k-th piece failed: first this chunk's pieces, then those
  /// of the chunks before it, each in the order they were cleared.
  function RollbackOrder(r: Run, k: nat): seq<Run> {
    Pieces(r, ChunkFirst(r, k), k) + Pieces(r, 0, ChunkFirst(r, k))
  }

  function Bits(r: Run): (s: set<nat>)
    ensures forall b: nat :: b in s <==> r.idx <= b < r.idx + r.n
    decreases r.n
  {
    if r.n == 0 then {} else {r.idx} + Bits(Run(r.idx + 1, r.n - 1))
  }

  // ----- steps --------------------------------------------------------------

  predicate Enabled(s: State, step: Step) {
    match step
    case StartClaim(t, _) => t < |s.pc| && s.pc[t].Idle?
    case StartRelease(t, i) => t < |s.pc| && s.pc[t].Idle? && i < |s.held|
    case Cas(t) => t < |s.pc| && !s.pc[t].Idle?
  }

  /// `bf_try_clear_mask` on the next piece.
  function ClearPiece(s: State, t: nat, r: Run, k: nat): State
    requires t < |s.pc|
  {
    if Whole(r, k) then s.(held := s.held + [r], pc := s.pc[t := Idle])
    else if Bits(Piece(r, k)) <= s.free then
      s.(free := s.free - Bits(Piece(r, k)), pc := s.pc[t := Clearing(r, k + 1)])
    else s.(pc := s.pc[t := RollingBack(RollbackOrder(r, k))])
  }

  /// `bf_set_mask`.
  function SetPiece(s: State, t: nat, p: Run, next: Pc): State
    requires t < |s.pc|
  {
    s.(free := s.free + Bits(p), pc := s.pc[t := next])
  }

  function Apply(s: State, step: Step): State
    requires Enabled(s, step)
  {
    match step
    case StartClaim(t, r) => s.(pc := s.pc[t := Clearing(r, 0)])
    case StartRelease(t, i) =>
      s.(held := s.held[..i] + s.held[i + 1..], pc := s.pc[t := Setting(s.held[i], 0)])
    case Cas(t) =>
      match s.pc[t]
      case Clearing(r, k) => ClearPiece(s, t, r, k)
      case RollingBack(todo) =>
        if todo == [] then s.(pc := s.pc[t := Idle])
        else SetPiece(s, t, todo[0], RollingBack(todo[1..]))
      case Setting(r, k) =>
        if Whole(r, k) then s.(pc := s.pc[t := Idle])
        else SetPiece(s, t, Piece(r, k), Setting(r, k + 1))
  }

  ghost predicate Runs(s: State, steps: seq<Step>, s': State)
    decreases |steps|
  {
    if steps == [] then s' == s
    else Enabled(s, steps[0]) && Runs(Apply(s, steps[0]), steps[1..], s')
  }

  // ----- who has a bit ------------------------------------------------------

  function In(r: Run, b: nat): nat { if r.idx <= b < r.idx + r.n then 1 else 0 }

  function InAll(rs: seq<Run>, b: nat): nat {
    if rs == [] then 0 else In(rs[0], b) + InAll(rs[1..], b)
  }

  /// How often bit `b` is in the hands of a thread in mid-operation.
  function Partial(p: Pc, b: nat): nat {
    match p
    case Idle => 0
    case Clearing(r, k) => In(Run(r.idx, Cut(r, k) - r.idx), b)
    case RollingBack(todo) => InAll(todo, b)
    case Setting(r, k) => In(Run(Cut(r, k), r.idx + r.n - Cut(r, k)), b)
  }

  function Partials(pc: seq<Pc>, b: nat): nat {
    if pc == [] then 0 else Partial(pc[0], b) + Partials(pc[1..], b)
  }

  function Holders(s: State, b: nat): nat {
    (if b in s.free then 1 else 0) + InAll(s.held, b) + Partials(s.pc, b)
  }

  lemma {:induction false} PartialsUpdate(pc: seq<Pc>, t: nat, p: Pc, b: nat)
    requires t < |pc|
    ensures Partials(pc[t := p], b) + Partial(pc[t], b) == Partials(pc, b) + Partial(p, b)
  {
    var q := pc[t := p];
    if t == 0 {
      assert q[1..] == pc[1..];
    } else {
      PartialsUpdate(pc[1..], t - 1, p, b);
      assert q[1..] == pc[1..][t - 1 := p];
      assert q[0] == pc[0];
    }
  }

  lemma {:induction false} InConcat(p: seq<Run>, q: seq<Run>, b: nat)
    ensures InAll(p + q, b) == InAll(p, b) + InAll(q, b)
  {
    if p == [] {
      assert p + q == q;
    } else {
      InConcat(p[1..], q, b);
      assert (p + q)[1..] == p[1..] + q;
    }
  }

  lemma {:induction false} PiecesCover(r: Run, lo: nat, hi: nat, b: nat)
    requires lo <= hi
    ensures InAll(Pieces(r, lo, hi), b) == In(Run(Cut(r, lo), Cut(r, hi) - Cut(r, lo)), b)
    decreases hi - lo
  {
    if lo < hi {
      PiecesCover(r, lo + 1, hi, b);
      InCons(Piece(r, lo), Pieces(r, lo + 1, hi), b);
    }
  }

  lemma InCons(r: Run, rs: seq<Run>, b: nat)
    ensures InAll([r] + rs, b) == In(r, b) + InAll(rs, b)
  {
    assert ([r] + rs)[1..] == rs;
  }

  /// Rolling back sets exactly the bits this claim had cleared.
  lemma RollbackIsExact(r: Run, k: nat, b: nat)
    ensures InAll(RollbackOrder(r, k), b) == In(Run(r.idx, Cut(r, k) - r.idx), b)
  {
    var j := ChunkFirst(r, k);
    InConcat(Pieces(r, j, k), Pieces(r, 0, j), b);
    PiecesCover(r, j, k, b);
    PiecesCover(r, 0, j, b);
  }

  // ----- preservation -------------------------------------------------------

  lemma CutGrows(r: Run, k: nat)
    ensures Cut(r, 0) == r.idx
    ensures Cut(r, k) <= Cut(r, k + 1)
    ensures Whole(r, k) ==> Cut(r, k) == r.idx + r.n
  {
  }

  lemma ClearKeeps(s: State, t: nat, r: Run, k: nat, b: nat)
    requires t < |s.pc| && s.pc[t] == Clearing(r, k)
    ensures Holders(ClearPiece(s, t, r, k), b) == Holders(s, b)
  {
    var s' := ClearPiece(s, t, r, k);
    PartialsUpdate(s.pc, t, s'.pc[t], b);
    CutGrows(r, k);
    if Whole(r, k) {
      InConcat(s.held, [r], b);
      InCons(r, [], b);
    } else if !(Bits(Piece(r, k)) <= s.free) {
      RollbackIsExact(r, k, b);
    }
  }

  /// Setting a piece this thread holds, and nobody else, moves it to `free`.
  lemma SetKeeps(s: State, t: nat, p: Run, next: Pc, b: nat)
    requires t < |s.pc| && Partial(s.pc[t], b) == In(p, b) + Partial(next, b)
    requires Holders(s, b) <= 1
    ensures Holders(SetPiece(s, t, p, next), b) == Holders(s, b)
  {
    PartialsUpdate(s.pc, t, next, b);
  }

  lemma {:induction false} InRemoved(rs: seq<Run>, i: nat, b: nat)
    requires i < |rs|
    ensures InAll(rs[..i] + rs[i + 1..], b) + In(rs[i], b) == InAll(rs, b)
  {
    InConcat(rs[..i], rs[i + 1..], b);
    InConcat(rs[..i], rs[i..], b);
    assert rs[..i] + rs[i..] == rs;
    assert rs[i..] == [rs[i]] + rs[i + 1..];
    InCons(rs[i], rs[i + 1..], b);
  }

  lemma StepKeeps(s: State, step: Step, b: nat)
    requires Enabled(s, step) && Holders(s, b) <= 1
    ensures Holders(Apply(s, step), b) == Holders(s, b)
  {
    match step
    case StartClaim(t, r) =>
      PartialsUpdate(s.pc, t, Clearing(r, 0), b);
      CutGrows(r, 0);
    case StartRelease(t, i) =>
      PartialsUpdate(s.pc, t, Setting(s.held[i], 0), b);
      InRemoved(s.held, i, b);
      CutGrows(s.held[i], 0);
    case Cas(t) =>
      match s.pc[t]
      case Clearing(r, k) => ClearKeeps(s, t, r, k, b);
      case RollingBack(todo) =>
        if todo == [] { PartialsUpdate(s.pc, t, Idle, b); }
        else { SetKeeps(s, t, todo[0], RollingBack(todo[1..]), b); }
      case Setting(r, k) =>
        CutGrows(r, k);
        if Whole(r, k) { PartialsUpdate(s.pc, t, Idle, b); }
        else { SetKeeps(s, t, Piece(r, k), Setting(r, k + 1), b); }
  }

  // ----- what holds over every run ------------------------------------------

  ghost predicate Init(s: State) {
    s.held == [] && forall t :: 0 <= t < |s.pc| ==> s.pc[t].Idle?
  }

  lemma {:induction false} NobodyHolds(pc: seq<Pc>, b: nat)
    requires forall t :: 0 <= t < |pc| ==> pc[t].Idle?
    ensures Partials(pc, b) == 0
  {
    if pc != [] { NobodyHolds(pc[1..], b); }
  }

  lemma {:induction false} RunKeeps(s: State, steps: seq<Step>, s': State, b: nat)
    requires Runs(s, steps, s') && Holders(s, b) <= 1
    ensures Holders(s', b) == Holders(s, b)
    decreases |steps|
  {
    if steps != [] {
      StepKeeps(s, steps[0], b);
      RunKeeps(Apply(s, steps[0]), steps[1..], s', b);
    }
  }

  /// At any time every bit that was free at the start is either free, or held by
  /// exactly one completed claim, or by exactly one thread in mid-operation; no
  /// other bit is ever free or held.
  lemma EveryBitOnce(s0: State, steps: seq<Step>, s: State)
    requires Init(s0) && Runs(s0, steps, s)
    ensures forall b: nat :: Holders(s, b) == if b in s0.free then 1 else 0
  {
    forall b: nat ensures Holders(s, b) == if b in s0.free then 1 else 0 {
      NobodyHolds(s0.pc, b);
      RunKeeps(s0, steps, s, b);
    }
  }

  lemma {:induction false} InAt(rs: seq<Run>, i: nat, b: nat)
    requires i < |rs|
    ensures In(rs[i], b) <= InAll(rs, b)
  {
    if i > 0 { InAt(rs[1..], i - 1, b); }
  }

  /// Two completed claims never share a bit, and no claimed bit is free.
  lemma ClaimsDisjoint(s0: State, steps: seq<Step>, s: State, i: nat, j: nat)
    requires Init(s0) && Runs(s0, steps, s) && i < j < |s.held|
    ensures Bits(s.held[i]) !! Bits(s.held[j])
    ensures Bits(s.held[i]) !! s.free
  {
    EveryBitOnce(s0, steps, s);
    forall b: nat | b in Bits(s.held[i]) ensures b !in Bits(s.held[j]) && b !in s.free {
      assert Holders(s, b) <= 1;
      InConcat(s.held[..j], s.held[j..], b);
      assert s.held == s.held[..j] + s.held[j..];
      InAt(s.held[..j], i, b);
      InAt(s.held[j..], 0, b);
    }
  }

  /// A thread that never completes its claim gives everything back: when all
  /// threads are idle and nothing is held, the free set is the one at the start.
  lemma NothingLost(s0: State, steps: seq<Step>, s: State)
    requires Init(s0) && Runs(s0, steps, s)
    requires s.held == [] && forall t :: 0 <= t < |s.pc| ==> s.pc[t].Idle?
    ensures s.free == s0.free
  {
    EveryBitOnce(s0, steps, s);
    forall b: nat ensures b in s.free <==> b in s0.free {
      assert Holders(s, b) == if b in s0.free then 1 else 0;
      NobodyHolds(s.pc, b);
    }
  }

  // ----- one thread by itself -----------------------------------------------

  function Alone(t: nat, n: nat): seq<Step> {
    if n == 0 then [] else [Cas(t)] + Alone(t, n - 1)
  }

  /// Actions of thread `t`, with nobody else's in between, lead from `s` to `s'`.
  ghost predicate Leads(s: State, t: nat, s': State) { exists n: nat :: Runs(s, Alone(t, n), s') }

  lemma LeadsFrom(s: State, t: nat, s': State)
    requires Enabled(s, Cas(t)) && Leads(Apply(s, Cas(t)), t, s')
    ensures Leads(s, t, s')
  {
    var n: nat :| Runs(Apply(s, Cas(t)), Alone(t, n), s');
    assert Alone(t, n + 1)[1..] == Alone(t, n);
    assert Runs(s, Alone(t, n + 1), s');
  }

  lemma LeadsNowhere(s: State, t: nat)
    ensures Leads(s, t, s)
  {
    assert Runs(s, Alone(t, 0), s);
  }

  /// The bits of all of `rs`.
  function AllBits(rs: seq<Run>): (s: set<nat>)
    ensures forall b: nat :: b in s <==> InAll(rs, b) > 0
  {
    if rs == [] then {} else Bits(rs[0]) + AllBits(rs[1..])
  }

  lemma {:induction false} RollBackAlone(s: State, t: nat, todo: seq<Run>)
    requires t < |s.pc| && s.pc[t] == RollingBack(todo)
    ensures Leads(s, t, s.(free := s.free + AllBits(todo), pc := s.pc[t := Idle]))
    decreases |todo|
  {
    var s1 := Apply(s, Cas(t));
    if todo == [] {
      assert s.free + AllBits(todo) == s.free;
      LeadsNowhere(s1, t);
    } else {
      RollBackAlone(s1, t, todo[1..]);
      assert s1.free + AllBits(todo[1..]) == s.free + AllBits(todo);
      assert s1.pc[t := Idle] == s.pc[t := Idle];
    }
    LeadsFrom(s, t, s.(free := s.free + AllBits(todo), pc := s.pc[t := Idle]));
  }

  /// The pieces from the k-th on.
  function Rest(r: Run, k: nat): Run { Run(Cut(r, k), r.idx + r.n - Cut(r, k)) }

  function Taken(r: Run, k: nat): Run { Run(r.idx, Cut(r, k) - r.idx) }

  lemma PieceOfRest(r: Run, k: nat)
    requires !Whole(r, k)
    ensures Cut(r, k) < Cut(r, k + 1)
    ensures Bits(Rest(r, k)) == Bits(Piece(r, k)) + Bits(Rest(r, k + 1))
    ensures Bits(Piece(r, k)) !! Bits(Rest(r, k + 1))
    ensures Bits(Taken(r, k + 1)) == Bits(Taken(r, k)) + Bits(Piece(r, k))
  {
    CutGrows(r, k);
  }

  /// The state after a claim has run to its end with its first pieces cleared.
  function ClaimEnd(s: State, t: nat, r: Run, k: nat): State
    requires t < |s.pc|
  {
    if Bits(Rest(r, k)) <= s.free then
      s.(free := s.free - Bits(Rest(r, k)), held := s.held + [r], pc := s.pc[t := Idle])
    else s.(free := s.free + Bits(Taken(r, k)), pc := s.pc[t := Idle])
  }

  lemma {:induction false} ClearAlone(s: State, t: nat, r: Run, k: nat)
    requires t < |s.pc| && s.pc[t] == Clearing(r, k)
    ensures Leads(s, t, ClaimEnd(s, t, r, k))
    decreases r.idx + r.n - Cut(r, k)
  {
    var s1 := Apply(s, Cas(t));
    if Whole(r, k) {
      assert s.free - Bits(Rest(r, k)) == s.free;
      LeadsNowhere(s1, t);
    } else if Bits(Piece(r, k)) <= s.free {
      PieceOfRest(r, k);
      ClearAlone(s1, t, r, k + 1);
      ClearedOne(s, s1, t, r, k);
    } else {
      PieceOfRest(r, k);
      assert !(Bits(Rest(r, k)) <= s.free);
      RollBackAlone(s1, t, RollbackOrder(r, k));
      forall b: nat ensures b in AllBits(RollbackOrder(r, k)) <==> b in Bits(Taken(r, k)) {
        RollbackIsExact(r, k, b);
      }
      assert AllBits(RollbackOrder(r, k)) == Bits(Taken(r, k));
      assert s1.pc[t := Idle] == s.pc[t := Idle];
    }
    LeadsFrom(s, t, ClaimEnd(s, t, r, k));
  }

  lemma ClearedOne(s: State, s1: State, t: nat, r: Run, k: nat)
    requires t < |s.pc| && !Whole(r, k) && Bits(Piece(r, k)) <= s.free
    requires s1 == s.(free := s.free - Bits(Piece(r, k)), pc := s.pc[t := Clearing(r, k + 1)])
    ensures ClaimEnd(s1, t, r, k + 1) == ClaimEnd(s, t, r, k)
  {
    PieceOfRest(r, k);
    assert s1.pc[t := Idle] == s.pc[t := Idle];
    if Bits(Rest(r, k)) <= s.free {
      assert Bits(Rest(r, k + 1)) <= s1.free;
      assert s1.free - Bits(Rest(r, k + 1)) == s.free - Bits(Rest(r, k));
    } else {
      assert s1.free + Bits(Taken(r, k + 1)) == s.free + Bits(Taken(r, k));
    }
  }

  /// A claim that nobody disturbs takes its run iff all of it is free, over any
  /// number of words and chunks, and otherwise leaves everything as it was.
  lemma ClaimAlone(s: State, t: nat, r: Run)
    requires Enabled(s, StartClaim(t, r))
    ensures Leads(Apply(s, StartClaim(t, r)), t,
                  if Bits(r) <= s.free then s.(free := s.free - Bits(r), held := s.held + [r]) else s)
  {
    var s1 := Apply(s, StartClaim(t, r));
    CutGrows(r, 0);
    ClearAlone(s1, t, r, 0);
    assert Rest(r, 0) == r && s1.pc[t := Idle] == s.pc;
    assert s.free + Bits(Taken(r, 0)) == s.free;
  }

  lemma {:induction false} SetAlone(s: State, t: nat, r: Run, k: nat)
    requires t < |s.pc| && s.pc[t] == Setting(r, k)
    ensures Leads(s, t, s.(free := s.free + Bits(Rest(r, k)), pc := s.pc[t := Idle]))
    decreases r.idx + r.n - Cut(r, k)
  {
    var s1 := Apply(s, Cas(t));
    var s2 := s.(free := s.free + Bits(Rest(r, k)), pc := s.pc[t := Idle]);
    if Whole(r, k) {
      assert s.free + Bits(Rest(r, k)) == s.free;
      LeadsNowhere(s1, t);
    } else {
      PieceOfRest(r, k);
      SetAlone(s1, t, r, k + 1);
      assert s1.free + Bits(Rest(r, k + 1)) == s2.free;
      assert s1.pc[t := Idle] == s.pc[t := Idle];
    }
    LeadsFrom(s, t, s2);
  }

  /// A release makes exactly the bits of its claim free again.
  lemma ReleaseAlone(s: State, t: nat, i: nat)
    requires Enabled(s, StartRelease(t, i))
    ensures Leads(Apply(s, StartRelease(t, i)), t,
                  s.(free := s.free + Bits(s.held[i]), held := s.held[..i] + s.held[i + 1..]))
  {
    var s1 := Apply(s, StartRelease(t, i));
    CutGrows(s.held[i], 0);
    SetAlone(s1, t, s.held[i], 0);
    assert Rest(s.held[i], 0) == s.held[i] && s1.pc[t := Idle] == s.pc;
  }
}
