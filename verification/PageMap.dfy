/// The address-to-page map: a top table of lazily allocated submaps, every
/// missing submap being one shared all-null submap, refines a flat map from
/// slices to pages.

module PageMap {
  import opened SliceRuns

  const SUB_COUNT: nat := 8192
  const TOP_COUNT: nat := 262144

  /// A page pointer; 0 is null.
  type PagePtr = nat

  function SliceIndex(addr: nat): nat { addr / SLICE_SIZE }

  /// Slice `u` is one of the `count` slices from address `addr` on.
  predicate InRange(u: nat, addr: nat, count: nat) {
    SliceIndex(addr) <= u < SliceIndex(addr) + count
  }

  class PageMap {
    const zero: array<PagePtr>
    var top: array?<array<PagePtr>>
    ghost var subs: set<array<PagePtr>>      // every submap in the table

    ghost predicate Valid()
      reads this, top, subs, zero
    {
      && zero.Length == SUB_COUNT
      && (forall j :: 0 <= j < SUB_COUNT ==> zero[j] == 0)
      && zero !in subs
      && (forall s :: s in subs ==> s.Length == SUB_COUNT)
      && (top != null ==>
            && top.Length == TOP_COUNT
            && (forall i :: 0 <= i < TOP_COUNT ==> top[i] == zero || top[i] in subs)
            && (forall i, j :: 0 <= i < j < TOP_COUNT && top[i] == top[j] ==> top[i] == zero))
    }

    /// The page of slice `u`.
    ghost function Flat(u: nat): PagePtr
      requires Valid()
      reads this, top, subs, zero
    {
      if top == null || u / SUB_COUNT >= TOP_COUNT then 0 else top[u / SUB_COUNT][u % SUB_COUNT]
    }

    /// Top entry `t` has a submap of its own.
    ghost predicate Dedicated(t: nat)
      requires Valid()
      reads this, top, subs, zero
    {
      top != null && t < TOP_COUNT && top[t] != zero
    }

    /// There is, or can be, a submap for slice `u`.
    ghost predicate Mappable(u: nat, canAlloc: nat -> bool)
      requires Valid()
      reads this, top, subs, zero
    {
      u / SUB_COUNT < TOP_COUNT && (Dedicated(u / SUB_COUNT) || canAlloc(u / SUB_COUNT))
    }

    constructor ()
      ensures Valid() && fresh(zero) && fresh(subs) && top == null
      ensures forall u: nat :: Flat(u) == 0
    {
      zero := new PagePtr[SUB_COUNT](_ => 0);
      top := null;
      subs := {};
    }

    /// `ok` tells whether the OS has memory for the table.
    method EnsureTop(ok: bool) returns (there: bool)
      requires Valid()
      modifies this`top
      ensures Valid() && there == (old(top) != null || ok) && (there <==> top != null)
      ensures top != old(top) ==> fresh(top)
      ensures forall u: nat :: Flat(u) == old(Flat(u))
      ensures forall t: nat :: Dedicated(t) == old(Dedicated(t))
    {
      if top != null { return true; }
      if !ok { return false; }
      var z := zero;
      top := new array<PagePtr>[TOP_COUNT](_ => z);
      return true;
    }

    /// The dedicated submap for `t`, replacing the shared one on first use; the
    /// shared one when there is no memory.
    method EnsureSubmap(t: nat, canAlloc: bool) returns (s: array<PagePtr>)
      requires Valid() && top != null && t < TOP_COUNT
      modifies this`subs, top
      ensures Valid() && fresh(subs - old(subs)) && old(subs) <= subs
      ensures top[t] == s && (s == zero || s in subs)
      ensures s == zero <==> !old(Dedicated(t)) && !canAlloc
      ensures forall i: nat :: Dedicated(i) <==> old(Dedicated(i)) || (i == t && canAlloc)
      ensures forall u: nat :: Flat(u) == old(Flat(u))
    {
      if top[t] != zero { return top[t]; }
      if !canAlloc { return zero; }
      s := new PagePtr[SUB_COUNT](_ => 0);
      top[t] := s;
      subs := subs + {s};
    }

    method Lookup(addr: nat) returns (p: PagePtr)
      requires Valid()
      ensures p == Flat(SliceIndex(addr))
    {
      if top == null { return 0; }
      var u := SliceIndex(addr);
      if u / SUB_COUNT >= TOP_COUNT { return 0; }
      return top[u / SUB_COUNT][u % SUB_COUNT];
    }

    /// Stores one entry of a dedicated submap.
    method Store(u: nat, p: PagePtr)
      requires Valid() && top != null && u / SUB_COUNT < TOP_COUNT && top[u / SUB_COUNT] != zero
      modifies top[u / SUB_COUNT]
      ensures Valid()
      ensures forall v: nat :: Flat(v) == (if v == u then p else old(Flat(v)))
      ensures forall t: nat :: Dedicated(t) == old(Dedicated(t))
    {
      var s := top[u / SUB_COUNT];
      s[u % SUB_COUNT] := p;
      forall v: nat ensures Flat(v) == (if v == u then p else old(Flat(v))) {
        if v / SUB_COUNT < TOP_COUNT && v / SUB_COUNT != u / SUB_COUNT {
          assert top[v / SUB_COUNT] != s;
        }
      }
    }

    method Unregister(addr: nat, count: nat)
      requires Valid()
      modifies subs
      ensures Valid()
      ensures forall u: nat :: Flat(u) == (if InRange(u, addr, count) then 0 else old(Flat(u)))
      ensures forall t: nat :: Dedicated(t) == old(Dedicated(t))
    {
      if top == null { return; }
      var u0 := SliceIndex(addr);
      var s := 0;
      while s < count
        invariant s <= count && Valid()
        invariant forall u: nat :: Flat(u) == (if InRange(u, addr, s) then 0 else old(Flat(u)))
      {
        var u := u0 + s;
        if u / SUB_COUNT >= TOP_COUNT { return; }
        if top[u / SUB_COUNT] != zero {
          Store(u, 0);
        }
        s := s + 1;
      }
    }

    /// Succeeds exactly when there is a table and every slice of the range can
    /// be mapped, and then maps the whole range. On failure the entries written
    /// so far, those below the first slice `bad` that cannot be mapped, are
    /// cleared: the map is as before if and only if those were unmapped.
    method Register(addr: nat, count: nat, page: PagePtr, topOk: bool, canAlloc: nat -> bool)
      returns (ok: bool, ghost bad: nat)
      requires Valid()
      modifies this, top, subs
      ensures Valid() && fresh(subs - old(subs)) && (top != old(top) ==> fresh(top))
      ensures ok <==> (topOk || old(top) != null)
                      && forall u: nat :: InRange(u, addr, count) ==> old(Mappable(u, canAlloc))
      ensures ok ==> forall u: nat :: Flat(u) == (if InRange(u, addr, count) then page else old(Flat(u)))
      ensures forall t: nat :: old(Dedicated(t)) ==> Dedicated(t)
      ensures forall t: nat :: Dedicated(t) ==> old(Dedicated(t)) || canAlloc(t)
      ensures !ok ==> bad <= count
      ensures !ok ==> forall u: nat :: InRange(u, addr, bad) ==> old(Mappable(u, canAlloc))
      ensures !ok && (topOk || old(top) != null) ==>
                bad < count && !old(Mappable(SliceIndex(addr) + bad, canAlloc))
      ensures !ok ==> forall u: nat :: Flat(u) == (if InRange(u, addr, bad) then 0 else old(Flat(u)))
      ensures !ok ==> ((forall u: nat :: Flat(u) == old(Flat(u)))
                       <==> forall u: nat :: InRange(u, addr, bad) ==> old(Flat(u)) == 0)
    {
      var u0 := SliceIndex(addr);
      bad := 0;
      var there := EnsureTop(topOk);
      if !there { return false, 0; }
      var s := 0;
      while s < count
        invariant s <= count && bad == s && Valid() && top != null
        invariant fresh(subs - old(subs)) && (top != old(top) ==> fresh(top))
        invariant forall u: nat :: Flat(u) == (if InRange(u, addr, s) then page else old(Flat(u)))
        invariant forall u: nat :: InRange(u, addr, s) ==> old(Mappable(u, canAlloc))
        invariant forall t: nat :: old(Dedicated(t)) ==> Dedicated(t)
        invariant forall t: nat :: Dedicated(t) ==> old(Dedicated(t)) || canAlloc(t)
      {
        var u := u0 + s;
        var submap := zero;
        if u / SUB_COUNT < TOP_COUNT {
          submap := EnsureSubmap(u / SUB_COUNT, canAlloc(u / SUB_COUNT));
        }
        if submap == zero {
          assert InRange(u, addr, count) && !old(Mappable(u, canAlloc));
          Unregister(addr, s);
          return false, s;
        }
        assert old(Mappable(u, canAlloc));
        Store(u, page);
        s := s + 1;
        bad := s;
      }
      return true, count;
    }
  }

  // ----- a failure that changes the map -------------------------------------

  /// The last slice of the first submap.
  const LAST: nat := SUB_COUNT - 1

  /// A map with a page at `LAST` and no second submap.
  method MappedLast(page: PagePtr) returns (m: PageMap)
    ensures m.Valid() && m.Flat(LAST) == page && !m.Dedicated(1)
    ensures fresh(m) && fresh(m.subs) && (m.top != null ==> fresh(m.top))
  {
    m := new PageMap();
    SliceStart(LAST);
    assert LAST / SUB_COUNT == 0;
    var ok;
    ghost var bad;
    ok, bad := m.Register(LAST * SLICE_SIZE, 1, page, true, t => t == 0);
  }

  predicate NoMemory(t: nat) { false }

  /// Registering that slice and the next without memory for a second submap
  /// fails, and the page that was there is no longer found.
  method FailureForgets(m: PageMap, page: PagePtr) returns (ok: bool)
    requires m.Valid() && m.Flat(LAST) != 0 && !m.Dedicated(1)
    modifies m, m.top, m.subs
    ensures m.Valid() && !ok && m.Flat(LAST) == 0
  {
    SliceStart(LAST);
    assert LAST / SUB_COUNT == 0 && (LAST + 1) / SUB_COUNT == 1;
    assert m.Dedicated(0);
    var addr := LAST * SLICE_SIZE;
    assert InRange(LAST + 1, addr, 2) && !m.Mappable(LAST + 1, NoMemory);
    ghost var bad;
    ok, bad := m.Register(addr, 2, page, true, NoMemory);
    assert InRange(LAST, addr, bad);
  }

  lemma SliceStart(u: nat)
    ensures SliceIndex(u * SLICE_SIZE) == u
  {
  }
}
