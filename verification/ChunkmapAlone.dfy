/// What a set and a claim of one chunk come to when nobody is in between: the
/// fields and the chunkmap bit together.

module ChunkmapAlone {
  import opened Chunkmap

  function Alone(t: nat, n: nat): seq<Step> {
    if n == 0 then [] else [Go(t)] + Alone(t, n - 1)
  }

  /// Actions of thread `t`, with nobody else's in between, lead from `s` to `s'`.
  ghost predicate Leads(s: State, t: nat, s': State) { exists n: nat :: Run(s, Alone(t, n), s') }

  lemma LeadsNowhere(s: State, t: nat)
    ensures Leads(s, t, s)
  {
    assert Run(s, Alone(t, 0), s);
  }

  lemma LeadsFrom(s: State, t: nat, s': State)
    requires Shape(s) && t < |s.pc| && !s.pc[t].Idle? && Leads(GoOn(s, t), t, s')
    ensures Leads(s, t, s')
  {
    var n: nat :| Run(GoOn(s, t), Alone(t, n), s');
    RunFrom(s, Go(t), Alone(t, n), s');
    assert Run(s, Alone(t, n + 1), s');
  }

  /// The bits of field `f` among those of `todo`.
  function BitsOf(todo: seq<Mask>, f: nat): set<nat> {
    if todo == [] then {} else (if todo[0].f == f then todo[0].bits else {}) + BitsOf(todo[1..], f)
  }

  lemma {:induction false} NoBitsOf(todo: seq<Mask>, f: nat)
    requires forall i :: 0 <= i < |todo| ==> todo[i].f != f
    ensures BitsOf(todo, f) == {}
  {
    if todo != [] { NoBitsOf(todo[1..], f); }
  }

  lemma {:induction false} BitsOfMore(xs: seq<Mask>, m: Mask, f: nat)
    ensures BitsOf(xs + [m], f) == BitsOf(xs, f) + if m.f == f then m.bits else {}
  {
    if xs == [] {
      assert xs + [m] == [m];
    } else {
      assert (xs + [m])[1..] == xs[1..] + [m];
      BitsOfMore(xs[1..], m, f);
    }
  }

  // ----- setting ------------------------------------------------------------

  /// The fields with the bits of `todo` added.
  function Added(fields: seq<set<nat>>, todo: seq<Mask>): seq<set<nat>> {
    seq(|fields|, f requires 0 <= f < |fields| => fields[f] + BitsOf(todo, f))
  }

  lemma AddedOne(fields: seq<set<nat>>, todo: seq<Mask>)
    requires todo != [] && todo[0].f < |fields|
    ensures Added(fields[todo[0].f := fields[todo[0].f] + todo[0].bits], todo[1..]) == Added(fields, todo)
  {
    var fields1 := fields[todo[0].f := fields[todo[0].f] + todo[0].bits];
    forall f | 0 <= f < |fields| ensures Added(fields1, todo[1..])[f] == Added(fields, todo)[f] {
      assert Added(fields1, todo[1..])[f] == fields1[f] + BitsOf(todo[1..], f);
    }
  }

  lemma {:induction false} SettingAlone(s: State, t: nat, todo: seq<Mask>)
    requires Shape(s) && t < |s.pc| && s.pc[t] == Setting(todo)
    ensures Leads(s, t, With(s, t, Idle).(fields := Added(s.fields, todo), bit := true))
    decreases |todo|
  {
    var s1 := GoOn(s, t);
    if todo == [] {
      NothingAdded(s.fields);
      LeadsNowhere(s1, t);
    } else {
      SettingAlone(s1, t, todo[1..]);
      AddedOne(s.fields, todo);
      assert s1.pc[t := Idle] == s.pc[t := Idle];
    }
    LeadsFrom(s, t, With(s, t, Idle).(fields := Added(s.fields, todo), bit := true));
  }

  /// A set by itself adds exactly its bits and leaves the chunkmap bit set.
  lemma SetAlone(s: State, t: nat, todo: seq<Mask>)
    requires Shape(s) && Enabled(s, StartSet(t, todo))
    ensures Leads(Apply(s, StartSet(t, todo)), t, s.(fields := Added(s.fields, todo), bit := true))
  {
    var s1 := Apply(s, StartSet(t, todo));
    SettingAlone(s1, t, todo);
    assert s1.pc[t := Idle] == s.pc;
  }

  // ----- claiming -----------------------------------------------------------

  predicate AllThere(fields: seq<set<nat>>, todo: seq<Mask>) {
    forall i :: 0 <= i < |todo| ==> todo[i].f < |fields| && todo[i].bits <= fields[todo[i].f]
  }

  /// The fields without the bits of `todo`.
  function Removed(fields: seq<set<nat>>, todo: seq<Mask>): seq<set<nat>> {
    seq(|fields|, f requires 0 <= f < |fields| => fields[f] - BitsOf(todo, f))
  }

  predicate Empty(fields: seq<set<nat>>) { forall f :: 0 <= f < |fields| ==> fields[f] == {} }

  lemma NothingAdded(fields: seq<set<nat>>)
    ensures Added(fields, []) == fields && Removed(fields, []) == fields
  {
    forall f | 0 <= f < |fields| ensures Added(fields, [])[f] == fields[f] && Removed(fields, [])[f] == fields[f] {
      assert fields[f] + {} == fields[f] && fields[f] - {} == fields[f];
    }
  }

  lemma PutBackAll(fields: seq<set<nat>>, todo: seq<Mask>)
    requires AllThere(fields, todo)
    ensures Added(Removed(fields, todo), todo) == fields
  {
    BitsThere(fields, todo);
    forall f | 0 <= f < |fields| ensures Added(Removed(fields, todo), todo)[f] == fields[f] {
      assert fields[f] - BitsOf(todo, f) + BitsOf(todo, f) == fields[f];
    }
  }

  /// The fields that the masks of `todo` lie in are different ones.
  predicate Apart(todo: seq<Mask>) { forall i, j :: 0 <= i < j < |todo| ==> todo[i].f != todo[j].f }

  lemma {:induction false} DroppedAlone(s: State, t: nat, f: nat)
    requires Shape(s) && t < |s.pc| && f <= FIELDS && Empty(s.fields) && s.pc[t] == Rechecking(f)
    ensures Leads(s, t, With(s, t, Idle))
    decreases FIELDS - f
  {
    var s1 := GoOn(s, t);
    if f == FIELDS { LeadsNowhere(s1, t); } else { DroppedAlone(s1, t, f + 1); }
    assert s1.pc[t := Idle] == s.pc[t := Idle];
    LeadsFrom(s, t, With(s, t, Idle));
  }

  /// The chunkmap bit goes iff the chunk is empty.
  lemma {:induction false} CheckedAlone(s: State, t: nat, f: nat)
    requires Shape(s) && t < |s.pc| && f <= FIELDS && s.pc[t] == Checking(f)
    requires forall g :: 0 <= g < f ==> s.fields[g] == {}
    ensures Leads(s, t, With(s, t, Idle).(bit := s.bit && !Empty(s.fields)))
    decreases FIELDS - f
  {
    var s1 := GoOn(s, t);
    var s2 := With(s, t, Idle).(bit := s.bit && !Empty(s.fields));
    if f == FIELDS {
      ClearedBit(s1, t);
    } else if s.fields[f] == {} {
      CheckedAlone(s1, t, f + 1);
    } else {
      LeadsNowhere(s1, t);
    }
    assert s1.pc[t := Idle] == s.pc[t := Idle];
    LeadsFrom(s, t, s2);
  }

  lemma ClearedBit(s: State, t: nat)
    requires Shape(s) && t < |s.pc| && Empty(s.fields) && s.pc[t] == Dropping
    ensures Leads(s, t, With(s, t, Idle).(bit := false))
  {
    var s1 := GoOn(s, t);
    if s.bit { DroppedAlone(s1, t, 0); } else { LeadsNowhere(s1, t); }
    assert s1.pc[t := Idle] == s.pc[t := Idle];
    LeadsFrom(s, t, With(s, t, Idle).(bit := false));
  }

  lemma {:induction false} UndoneAlone(s: State, t: nat, undo: seq<Mask>)
    requires Shape(s) && t < |s.pc| && s.pc[t] == Undoing(undo)
    ensures Leads(s, t, With(s, t, Idle).(fields := Added(s.fields, undo)))
    decreases |undo|
  {
    var s1 := GoOn(s, t);
    if undo == [] {
      NothingAdded(s.fields);
      LeadsNowhere(s1, t);
    } else {
      UndoneAlone(s1, t, undo[1..]);
      AddedOne(s.fields, undo);
      assert s1.pc[t := Idle] == s.pc[t := Idle];
    }
    LeadsFrom(s, t, With(s, t, Idle).(fields := Added(s.fields, undo)));
  }

  /// Where a claim ends that began with `fields`.
  function ClaimEnd(s: State, t: nat, fields: seq<set<nat>>, all: seq<Mask>): State
    requires t < |s.pc|
  {
    if AllThere(fields, all) then
      With(s, t, Idle).(fields := Removed(fields, all), bit := s.bit && !Empty(Removed(fields, all)))
    else With(s, t, Idle).(fields := fields)
  }

  /// Of the claim `all`, the fields of `undo` have been cleared.
  ghost predicate Partway(s: State, fields: seq<set<nat>>, all: seq<Mask>, todo: seq<Mask>, undo: seq<Mask>) {
    && |fields| == FIELDS && InChunk(all) && Apart(all) && all == undo + todo
    && AllThere(fields, undo) && s.fields == Removed(fields, undo)
  }

  lemma {:induction false} ClearingAlone(s: State, t: nat, fields: seq<set<nat>>, all: seq<Mask>,
                                         todo: seq<Mask>, undo: seq<Mask>)
    requires Shape(s) && t < |s.pc| && s.pc[t] == Clearing(todo, undo) && Partway(s, fields, all, todo, undo)
    ensures Leads(s, t, ClaimEnd(s, t, fields, all))
    decreases |todo|
  {
    var s1 := GoOn(s, t);
    GoKeepsShape(s, t);
    assert s1.pc[t := Idle] == s.pc[t := Idle];
    if todo == [] {
      assert all == undo;
      CheckedAlone(s1, t, 0);
    } else {
      NextField(s, fields, all, todo, undo);
      if todo[0].bits <= s.fields[todo[0].f] {
        ClearingAlone(s1, t, fields, all, todo[1..], undo + [todo[0]]);
      } else {
        assert all[|undo|] == todo[0];
        UndoneAlone(s1, t, undo);
      }
    }
    LeadsFrom(s, t, ClaimEnd(s, t, fields, all));
  }

  lemma NextField(s: State, fields: seq<set<nat>>, all: seq<Mask>, todo: seq<Mask>, undo: seq<Mask>)
    requires Partway(s, fields, all, todo, undo) && todo != []
    ensures todo[0].f < FIELDS && s.fields[todo[0].f] == fields[todo[0].f]
    ensures Added(s.fields, undo) == fields
    ensures var m := todo[0]; m.bits <= s.fields[m.f] ==>
      Partway(s.(fields := s.fields[m.f := s.fields[m.f] - m.bits]), fields, all, todo[1..], undo + [m])
  {
    var m := todo[0];
    assert all[|undo|] == m;
    forall i | 0 <= i < |undo| ensures undo[i].f != m.f { assert all[i] == undo[i]; }
    NoBitsOf(undo, m.f);
    PutBackAll(fields, undo);
    if m.bits <= s.fields[m.f] {
      var fields1 := s.fields[m.f := s.fields[m.f] - m.bits];
      forall f | 0 <= f < FIELDS ensures fields1[f] == Removed(fields, undo + [m])[f] { BitsOfMore(undo, m, f); }
      assert fields1 == Removed(fields, undo + [m]);
      assert all == (undo + [m]) + todo[1..];
    }
  }

  lemma {:induction false} BitsThere(fields: seq<set<nat>>, todo: seq<Mask>)
    requires AllThere(fields, todo)
    ensures forall f :: 0 <= f < |fields| ==> BitsOf(todo, f) <= fields[f]
  {
    if todo != [] {
      assert forall i :: 0 <= i < |todo[1..]| ==> todo[1..][i] == todo[i + 1];
      BitsThere(fields, todo[1..]);
    }
  }

  /// A claim by itself takes exactly its bits iff all of them are there, and then
  /// clears the chunkmap bit iff the chunk is empty; else nothing changes.
  lemma ClaimAlone(s: State, t: nat, todo: seq<Mask>)
    requires Shape(s) && Enabled(s, StartClaim(t, todo)) && Claim(todo)
    ensures Leads(Apply(s, StartClaim(t, todo)), t,
                  if AllThere(s.fields, todo) then
                    s.(fields := Removed(s.fields, todo), bit := s.bit && !Empty(Removed(s.fields, todo)))
                  else s)
  {
    var s1 := Apply(s, StartClaim(t, todo));
    NothingAdded(s.fields);
    assert [] + todo == todo;
    ClearingAlone(s1, t, s.fields, todo, todo, []);
    assert s1.pc[t := Idle] == s.pc;
  }
}
