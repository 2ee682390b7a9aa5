/// The chunkmap bit of one chunk under concurrent sets and claims: each field
/// load, each compare-and-swap and each chunkmap update is one step.

module Chunkmap {

  const FIELDS: nat := 8

  /// Bits `bits` of field `f`.
  datatype Mask = Mask(f: nat, bits: set<nat>)

  datatype Pc =
    | Idle
    | Setting(todo: seq<Mask>)     // set_n: fields left to set, then the chunkmap bit
    | Clearing(todo: seq<Mask>, undo: seq<Mask>)  // a claim: fields left, fields cleared
    | Undoing(undo: seq<Mask>)     // a claim that failed in a later field
    | Checking(f: nat)             // is the chunk empty? reading field f
    | Dropping                     // about to clear the chunkmap bit
    | Rechecking(f: nat)           // cleared it; reading field f again
    | Restoring                    // about to set it again

  datatype State = State(fields: seq<set<nat>>, bit: bool, pc: seq<Pc>)

  datatype Step = StartSet(t: nat, todo: seq<Mask>) | StartClaim(t: nat, todo: seq<Mask>) | Go(t: nat)

  predicate InChunk(todo: seq<Mask>) {
    forall i :: 0 <= i < |todo| ==> todo[i].f < FIELDS
  }

  predicate Sane(p: Pc) {
    match p
    case Setting(todo) => InChunk(todo)
    case Clearing(todo, undo) => InChunk(todo) && InChunk(undo)
    case Undoing(undo) => InChunk(undo)
    case Checking(f) => f <= FIELDS
    case Rechecking(f) => f <= FIELDS
    case _ => true
  }

  predicate Shape(s: State) {
    |s.fields| == FIELDS && forall t :: 0 <= t < |s.pc| ==> Sane(s.pc[t])
  }

  predicate Enabled(s: State, step: Step) {
    match step
    case StartSet(t, todo) => t < |s.pc| && s.pc[t].Idle? && InChunk(todo)
    case StartClaim(t, todo) => t < |s.pc| && s.pc[t].Idle? && InChunk(todo) && todo != []
    case Go(t) => t < |s.pc| && !s.pc[t].Idle?
  }

  function With(s: State, t: nat, p: Pc): State
    requires t < |s.pc|
  {
    s.(pc := s.pc[t := p])
  }

  function Or(s: State, m: Mask): State
    requires m.f < |s.fields|
  {
    s.(fields := s.fields[m.f := s.fields[m.f] + m.bits])
  }

  function GoOn(s: State, t: nat): State
    requires Shape(s) && t < |s.pc|
  {
    match s.pc[t]
    case Idle => s
    case Setting(todo) =>
      if todo == [] then With(s, t, Idle).(bit := true)
      else With(Or(s, todo[0]), t, Setting(todo[1..]))
    case Clearing(todo, undo) =>
      if todo == [] then With(s, t, Checking(0))
      else if todo[0].bits <= s.fields[todo[0].f] then
        With(s.(fields := s.fields[todo[0].f := s.fields[todo[0].f] - todo[0].bits]), t,
             Clearing(todo[1..], undo + [todo[0]]))
      else With(s, t, Undoing(undo))
    case Undoing(undo) =>
      if undo == [] then With(s, t, Idle) else With(Or(s, undo[0]), t, Undoing(undo[1..]))
    case Checking(f) =>
      if f == FIELDS then With(s, t, Dropping)
      else With(s, t, if s.fields[f] == {} then Checking(f + 1) else Idle)
    case Dropping =>
      if s.bit then With(s, t, Rechecking(0)).(bit := false) else With(s, t, Idle)
    case Rechecking(f) =>
      if f == FIELDS then With(s, t, Idle)
      else With(s, t, if s.fields[f] == {} then Rechecking(f + 1) else Restoring)
    case Restoring => With(s, t, Idle).(bit := true)
  }

  function Apply(s: State, step: Step): State
    requires Shape(s) && Enabled(s, step)
  {
    match step
    case StartSet(t, todo) => With(s, t, Setting(todo))
    case StartClaim(t, todo) => With(s, t, Clearing(todo, []))
    case Go(t) => GoOn(s, t)
  }

  ghost predicate Run(s: State, steps: seq<Step>, s': State)
    decreases |steps|
  {
    if steps == [] then s' == s
    else Shape(s) && Enabled(s, steps[0]) && Run(Apply(s, steps[0]), steps[1..], s')
  }

  // ----- the chunk is hidden only while somebody is at work on it -----------

  /// This thread will set the chunkmap bit, or has yet to read field `f`.
  predicate WillReveal(p: Pc, f: nat) {
    p.Setting? || p.Restoring? || (p.Rechecking? && p.f <= f)
  }

  /// A field with bits under a clear chunkmap bit has a thread attending to it.
  ghost predicate Attended(s: State, f: nat)
    requires |s.fields| == FIELDS
  {
    f < FIELDS && s.fields[f] != {} && !s.bit ==> exists t: nat :: t < |s.pc| && WillReveal(s.pc[t], f)
  }

  ghost predicate Inv(s: State) {
    Shape(s) && forall f: nat :: Attended(s, f)
  }

  /// No claim has to put bits back, so no bit appears without its setter.
  predicate NoUndo(s: State) {
    forall t :: 0 <= t < |s.pc| ==> !s.pc[t].Undoing? || s.pc[t].undo == []
  }

  lemma GoKeepsShape(s: State, t: nat)
    requires Shape(s) && t < |s.pc|
    ensures Shape(GoOn(s, t))
  {
  }

  lemma AttendedStep(s: State, step: Step, f: nat)
    requires Inv(s) && NoUndo(s) && Enabled(s, step) && f < FIELDS
    requires Apply(s, step).fields[f] != {} && !Apply(s, step).bit
    ensures exists u: nat :: u < |s.pc| && WillReveal(Apply(s, step).pc[u], f)
  {
    var s' := Apply(s, step);
    var t := step.t;
    if s.bit {
      assert s.pc[t].Dropping? && WillReveal(s'.pc[t], f);
    } else if s.fields[f] == {} {
      assert s.pc[t].Setting? && WillReveal(s'.pc[t], f);
    } else {
      assert Attended(s, f);
      var u: nat :| u < |s.pc| && WillReveal(s.pc[u], f);
      if u == t {
        assert WillReveal(s'.pc[t], f);
      } else {
        assert WillReveal(s'.pc[u], f);
      }
    }
  }

  lemma InvStep(s: State, step: Step)
    requires Inv(s) && NoUndo(s) && Enabled(s, step)
    ensures Inv(Apply(s, step))
  {
    if step.Go? { GoKeepsShape(s, step.t); }
    var s' := Apply(s, step);
    forall f: nat ensures Attended(s', f) {
      if f < FIELDS && s'.fields[f] != {} && !s'.bit {
        AttendedStep(s, step, f);
      }
    }
  }

  ghost predicate NoUndoRun(s: State, steps: seq<Step>)
    decreases |steps|
  {
    NoUndo(s) && (steps == [] || (Shape(s) && Enabled(s, steps[0]) && NoUndoRun(Apply(s, steps[0]), steps[1..])))
  }

  /// As long as no claim puts bits back, a chunk with bits has its chunkmap bit
  /// set, or a setter or a re-checking clearer is in mid-operation.
  lemma {:induction false} NeverHiddenWithoutUndo(s: State, steps: seq<Step>, s': State)
    requires Inv(s) && Run(s, steps, s') && NoUndoRun(s, steps)
    ensures Inv(s')
    decreases |steps|
  {
    if steps != [] {
      InvStep(s, steps[0]);
      NeverHiddenWithoutUndo(Apply(s, steps[0]), steps[1..], s');
    }
  }

  // ----- claims within one field --------------------------------------------

  predicate OneField(p: Pc) {
    match p
    case Clearing(todo, undo) => |todo| + |undo| <= 1
    case Undoing(undo) => undo == []
    case _ => true
  }

  /// Every claim under way lies in one field.
  predicate AllOneField(s: State) { forall t :: 0 <= t < |s.pc| ==> OneField(s.pc[t]) }

  /// So does every claim that is started.
  predicate OneFieldSteps(steps: seq<Step>) {
    forall i :: 0 <= i < |steps| && steps[i].StartClaim? ==> |steps[i].todo| == 1
  }

  lemma OneFieldStep(s: State, step: Step)
    requires Shape(s) && AllOneField(s) && Enabled(s, step) && (step.StartClaim? ==> |step.todo| == 1)
    ensures AllOneField(Apply(s, step))
  {
  }

  lemma {:induction false} OneFieldNeverUndoes(s: State, steps: seq<Step>, s': State)
    requires AllOneField(s) && Run(s, steps, s') && OneFieldSteps(steps)
    ensures NoUndoRun(s, steps)
    decreases |steps|
  {
    if steps != [] {
      assert steps[0].StartClaim? ==> |steps[0].todo| == 1;
      OneFieldStep(s, steps[0]);
      assert forall i :: 0 <= i < |steps[1..]| ==> steps[1..][i] == steps[i + 1];
      OneFieldNeverUndoes(Apply(s, steps[0]), steps[1..], s');
    }
  }

  /// With claims of single fields only, in any number and interleaving, a chunk
  /// with bits is hidden only while somebody is at work on it.
  lemma NeverHidden(s: State, steps: seq<Step>, s': State, f: nat)
    requires Inv(s) && AllOneField(s) && Run(s, steps, s') && OneFieldSteps(steps)
    ensures Inv(s')
    ensures f < FIELDS && s'.fields[f] != {} && !s'.bit ==>
              exists t: nat :: t < |s'.pc| && WillReveal(s'.pc[t], f)
  {
    OneFieldNeverUndoes(s, steps, s');
    NeverHiddenWithoutUndo(s, steps, s');
    assert Attended(s', f);
  }

  // ----- every claim of several fields can hide a chunk ---------------------

  lemma {:induction false} RunThen(s: State, xs: seq<Step>, s1: State, ys: seq<Step>, s2: State)
    requires Run(s, xs, s1) && Run(s1, ys, s2)
    ensures Run(s, xs + ys, s2)
    decreases |xs|
  {
    if xs == [] {
      assert xs + ys == ys;
    } else {
      RunThen(Apply(s, xs[0]), xs[1..], s1, ys, s2);
      assert (xs + ys)[1..] == xs[1..] + ys;
    }
  }

  lemma RunFrom(s: State, step: Step, rest: seq<Step>, s': State)
    requires Shape(s) && Enabled(s, step) && Run(Apply(s, step), rest, s')
    ensures Run(s, [step] + rest, s')
  {
    assert ([step] + rest)[1..] == rest;
  }

  /// Thread `t` reads the remaining fields of an empty chunk.
  lemma {:induction false} ReadsEmpty(s: State, t: nat, f: nat) returns (steps: seq<Step>, s': State)
    requires Shape(s) && t < |s.pc| && f <= FIELDS
    requires forall g :: 0 <= g < FIELDS ==> s.fields[g] == {}
    requires s.pc[t] == Checking(f) || s.pc[t] == Rechecking(f)
    ensures Run(s, steps, s') && NoClaims(steps)
    ensures s' == With(s, t, if s.pc[t].Checking? then Dropping else Idle)
    decreases FIELDS - f
  {
    var s1 := GoOn(s, t);
    if f == FIELDS {
      steps, s' := [Go(t)], s1;
      assert Run(s1, [], s1);
    } else {
      var rest: seq<Step>;
      rest, s' := ReadsEmpty(s1, t, f + 1);
      steps := [Go(t)] + rest;
      assert steps[1..] == rest;
    }
  }

  predicate NoClaims(steps: seq<Step>) {
    forall i :: 0 <= i < |steps| ==> !steps[i].StartClaim?
  }

  /// What try_clear_n claims: non-empty bits of one field after the other.
  predicate Claim(todo: seq<Mask>) {
    && todo != [] && InChunk(todo)
    && (forall i :: 0 <= i < |todo| ==> todo[i].bits != {})
    && (forall i, j :: 0 <= i < j < |todo| ==> todo[i].f != todo[j].f)
  }

  /// Every claim made is `todo` itself or one of a single field.
  predicate ClaimsOnly(steps: seq<Step>, todo: seq<Mask>) {
    forall i :: 0 <= i < |steps| && steps[i].StartClaim? ==> steps[i].todo == todo || |steps[i].todo| == 1
  }

  predicate AllIdle(s: State) { forall t :: 0 <= t < |s.pc| ==> s.pc[t].Idle? }

  /// The fields of a chunk with bits in two of them at most.
  function Fields(m: Mask, k: Mask): (r: seq<set<nat>>)
    requires m.f < FIELDS && k.f < FIELDS && m.f != k.f
    ensures |r| == FIELDS
    ensures forall g :: 0 <= g < FIELDS ==> r[g] == if g == m.f then m.bits else if g == k.f then k.bits else {}
  {
    [{}, {}, {}, {}, {}, {}, {}, {}][m.f := m.bits][k.f := k.bits]
  }

  lemma FieldsUpdated(m: Mask, k: Mask, bits: set<nat>)
    requires m.f < FIELDS && k.f < FIELDS && m.f != k.f
    ensures Fields(m, k)[m.f := bits] == Fields(Mask(m.f, bits), k)
    ensures Fields(m, k)[k.f := bits] == Fields(m, Mask(k.f, bits))
  {
  }

  lemma SetFacts(bits: set<nat>)
    ensures bits - bits == {} && {} + bits == bits
  {
  }

  /// Two threads, and bits `a` in the claim's first field, `c` in its second.
  function Two(todo: seq<Mask>, a: set<nat>, c: set<nat>, bit: bool, p: Pc, q: Pc): State
    requires Claim(todo) && |todo| >= 2
  {
    State(Fields(Mask(todo[0].f, a), Mask(todo[1].f, c)), bit, [p, q])
  }

  /// The claim has its first field and still wants the others.
  function HalfDone(todo: seq<Mask>): Pc
    requires todo != []
  {
    Clearing(todo[1..], [todo[0]])
  }

  /// Bit 0 of the claim's second field.
  function Other(todo: seq<Mask>): seq<Mask>
    requires |todo| >= 2
  {
    [Mask(todo[1].f, {0})]
  }

  lemma FirstClaims(todo: seq<Mask>) returns (steps: seq<Step>)
    requires Claim(todo) && |todo| >= 2
    ensures Run(Two(todo, todo[0].bits, {0}, true, Idle, Idle), steps, Two(todo, {}, {0}, true, HalfDone(todo), Idle))
    ensures ClaimsOnly(steps, todo)
  {
    var s := Two(todo, todo[0].bits, {0}, true, Idle, Idle);
    var s1 := Two(todo, todo[0].bits, {0}, true, Clearing(todo, []), Idle);
    var s2 := Two(todo, {}, {0}, true, HalfDone(todo), Idle);
    assert Apply(s, StartClaim(0, todo)) == s1;
    assert [] + [todo[0]] == [todo[0]];
    SetFacts(todo[0].bits);
    FieldsUpdated(Mask(todo[0].f, todo[0].bits), Mask(todo[1].f, {0}), {});
    assert Apply(s1, Go(0)) == s2;
    assert Run(s2, [], s2);
    RunFrom(s1, Go(0), [], s2);
    RunFrom(s, StartClaim(0, todo), [Go(0)] + [], s2);
    steps := [StartClaim(0, todo)] + ([Go(0)] + []);
  }

  lemma SecondEmpties(todo: seq<Mask>) returns (steps: seq<Step>)
    requires Claim(todo) && |todo| >= 2
    ensures Run(Two(todo, {}, {0}, true, HalfDone(todo), Idle), steps,
                Two(todo, {}, {}, true, HalfDone(todo), Checking(0)))
    ensures ClaimsOnly(steps, todo)
  {
    var other := Other(todo);
    var s := Two(todo, {}, {0}, true, HalfDone(todo), Idle);
    var s1 := Two(todo, {}, {0}, true, HalfDone(todo), Clearing(other, []));
    var s2 := Two(todo, {}, {}, true, HalfDone(todo), Clearing([], other));
    var s3 := Two(todo, {}, {}, true, HalfDone(todo), Checking(0));
    assert Apply(s, StartClaim(1, other)) == s1;
    assert other[1..] == [] && [] + [other[0]] == other;
    SetFacts({0});
    FieldsUpdated(Mask(todo[0].f, {}), Mask(todo[1].f, {0}), {});
    assert Apply(s1, Go(1)) == s2;
    assert Apply(s2, Go(1)) == s3;
    assert Run(s3, [], s3);
    RunFrom(s2, Go(1), [], s3);
    RunFrom(s1, Go(1), [Go(1)] + [], s3);
    RunFrom(s, StartClaim(1, other), [Go(1)] + ([Go(1)] + []), s3);
    steps := [StartClaim(1, other)] + ([Go(1)] + ([Go(1)] + []));
  }

  /// Emptiness check, dropping the chunkmap bit, and the re-check.
  lemma SecondDrops(todo: seq<Mask>) returns (steps: seq<Step>)
    requires Claim(todo) && |todo| >= 2
    ensures Run(Two(todo, {}, {}, true, HalfDone(todo), Checking(0)), steps,
                Two(todo, {}, {}, false, HalfDone(todo), Idle))
    ensures NoClaims(steps)
  {
    var a := Two(todo, {}, {}, true, HalfDone(todo), Checking(0));
    var b := Two(todo, {}, {}, true, HalfDone(todo), Dropping);
    var c := Two(todo, {}, {}, false, HalfDone(todo), Rechecking(0));
    assert Shape(a) && Shape(b) && Shape(c);
    var check, b' := ReadsEmpty(a, 1, 0);
    assert b' == b;
    assert Run(c, [], c) && Apply(b, Go(1)) == c;
    RunFrom(b, Go(1), [], c);
    RunThen(a, check, b, [Go(1)] + [], c);
    var recheck, d := ReadsEmpty(c, 1, 0);
    assert d == Two(todo, {}, {}, false, HalfDone(todo), Idle);
    RunThen(a, check + ([Go(1)] + []), c, recheck, d);
    steps := check + ([Go(1)] + []) + recheck;
  }

  lemma FirstPutsBack(todo: seq<Mask>) returns (steps: seq<Step>)
    requires Claim(todo) && |todo| >= 2
    ensures Run(Two(todo, {}, {}, false, HalfDone(todo), Idle), steps, Two(todo, todo[0].bits, {}, false, Idle, Idle))
    ensures NoClaims(steps)
  {
    var s := Two(todo, {}, {}, false, HalfDone(todo), Idle);
    var s1 := Two(todo, {}, {}, false, Undoing([todo[0]]), Idle);
    var s2 := Two(todo, todo[0].bits, {}, false, Undoing([]), Idle);
    var s3 := Two(todo, todo[0].bits, {}, false, Idle, Idle);
    assert todo[1..][0] == todo[1] && todo[1].bits != {};
    assert Apply(s, Go(0)) == s1;
    assert [todo[0]][1..] == [];
    SetFacts(todo[0].bits);
    FieldsUpdated(Mask(todo[0].f, {}), Mask(todo[1].f, {}), todo[0].bits);
    assert Apply(s1, Go(0)) == s2;
    assert Apply(s2, Go(0)) == s3;
    assert Run(s3, [], s3);
    RunFrom(s2, Go(0), [], s3);
    RunFrom(s1, Go(0), [Go(0)] + [], s3);
    RunFrom(s, Go(0), [Go(0)] + ([Go(0)] + []), s3);
    steps := [Go(0)] + ([Go(0)] + ([Go(0)] + []));
  }

  lemma StartsWell(todo: seq<Mask>)
    requires Claim(todo) && |todo| >= 2
    ensures var s := Two(todo, todo[0].bits, {0}, true, Idle, Idle); Inv(s) && AllIdle(s)
  {
  }

  lemma EndsHidden(todo: seq<Mask>)
    requires Claim(todo) && |todo| >= 2
    ensures var s := Two(todo, todo[0].bits, {}, false, Idle, Idle);
      && AllIdle(s) && Shape(s) && s.fields[todo[0].f] == todo[0].bits && !s.bit
      && !Attended(s, todo[0].f) && !Inv(s)
  {
    var s := Two(todo, todo[0].bits, {}, false, Idle, Idle);
    assert !Attended(s, todo[0].f);
  }

  /// The claim takes its first field, a second claim then empties the chunk and
  /// drops its chunkmap bit, and the first fails in its second field and puts
  /// the bits back: with both threads idle again the chunk has bits and is
  /// skipped.
  lemma RollbackHidesChunk(todo: seq<Mask>) returns (s: State, steps: seq<Step>, s': State)
    requires Claim(todo) && |todo| >= 2
    ensures Inv(s) && AllIdle(s) && Run(s, steps, s') && AllIdle(s') && ClaimsOnly(steps, todo)
    ensures Shape(s') && s'.fields[todo[0].f] == todo[0].bits && !s'.bit
    ensures !Attended(s', todo[0].f) && !Inv(s')
  {
    s, s' := Two(todo, todo[0].bits, {0}, true, Idle, Idle), Two(todo, todo[0].bits, {}, false, Idle, Idle);
    var s1, s2 := Two(todo, {}, {0}, true, HalfDone(todo), Idle), Two(todo, {}, {}, true, HalfDone(todo), Checking(0));
    var s3 := Two(todo, {}, {}, false, HalfDone(todo), Idle);
    var xs := FirstClaims(todo);
    var ys := SecondEmpties(todo);
    var zs := SecondDrops(todo);
    var ws := FirstPutsBack(todo);
    RunThen(s, xs, s1, ys, s2);
    RunThen(s, xs + ys, s2, zs, s3);
    RunThen(s, xs + ys + zs, s3, ws, s');
    steps := xs + ys + zs + ws;
    StartsWell(todo);
    EndsHidden(todo);
  }

  // ----- the exact condition ------------------------------------------------

  /// Used beside claims of single fields, in any number and interleaving, claims
  /// of this shape never leave a hidden chunk behind once all threads are idle.
  ghost predicate Safe(todo: seq<Mask>) {
    forall s: State, steps: seq<Step>, s': State ::
      Inv(s) && AllIdle(s) && Run(s, steps, s') && AllIdle(s') && ClaimsOnly(steps, todo) ==> Inv(s')
  }

  /// A claim is safe if and only if it lies in one field.
  lemma SafeIffOneField(todo: seq<Mask>)
    requires Claim(todo)
    ensures Safe(todo) <==> |todo| == 1
  {
    if |todo| == 1 {
      forall s: State, steps: seq<Step>, s': State
        | Inv(s) && AllIdle(s) && Run(s, steps, s') && AllIdle(s') && ClaimsOnly(steps, todo)
        ensures Inv(s')
      {
        NeverHidden(s, steps, s', 0);
      }
    } else {
      var s, steps, s' := RollbackHidesChunk(todo);
    }
  }
}
