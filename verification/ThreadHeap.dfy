/// A thread's heap: allocation through the direct cache and the bin queues,
/// retiring, collecting, and handing pages over, on one address space.

module ThreadHeap {
  import opened Words
  import opened SizeClasses
  import opened PageProtocol
  import opened PageLists
  import opened HeapState
  import opened Dispatch
  import opened SliceRuns
  import opened Wrappers

  const BIN_FULL: nat := 74

  /// The arenas' answer to a request for `n` slices when `free` are free.
  type Arenas = (set<nat>, nat) -> Option<nat>

  ghost predicate ArenasOk(arenas: Arenas) {
    forall free: set<nat>, n: nat :: arenas(free, n).Some? ==> n >= 1 && Slices(arenas(free, n).value, n) <= free
  }

  /// With just these slices free, the arenas have no run of `n`, or the page map
  /// does not take the one they give.
  predicate NoRun(arenas: Arenas, free: set<nat>, n: nat, mapOk: bool) {
    !mapOk || arenas(free, n).None? || arenas(free, n).value + n > MAX_SLICES
  }

  /// The direct cache leads to page `p` for `w` words, if it covers `w` at all.
  predicate Cached(direct: seq<PageId>, w: nat, p: PageId) {
    w <= SMALL_WSIZE_MAX ==> w < |direct| && direct[w] == p
  }

  /// The direct cache leads to a page that can serve `w` words.
  ghost predicate DirectHit(v: View, w: nat) {
    && w <= SMALL_WSIZE_MAX && w < |v.direct| && v.direct[w] != 0
    && v.direct[w] in v.heads && !AllLive(v.heads[v.direct[w]])
  }

  /// Page `p` is the one to serve `w` words: the cached one if it can, else as
  /// `Chosen` from its bin.
  ghost predicate ChosenFor(v: View, w: nat, claim: Option<PageId>, p: PageId, next: PageId) {
    if DirectHit(v, w) then p == v.direct[w] else WBin(w) >= 0 && Chosen(v, WBin(w), claim, p, next)
  }

  /// The same for a request of `size` bytes; a huge one gets a page of its own.
  ghost predicate RightPage(v: View, size: nat, claim: Option<PageId>, p: PageId, next: PageId) {
    if Clamped(size) > 8 * MAX_WSIZE then p == next else ChosenFor(v, WSize(Clamped(size)), claim, p, next)
  }

  /// No page there is could serve a request of `size` bytes.
  ghost predicate NoneCanServe(v: View, size: nat, claim: Option<PageId>) {
    Clamped(size) <= 8 * MAX_WSIZE ==>
      WBin(WSize(Clamped(size))) >= 0 && NothingToServe(v, WBin(WSize(Clamped(size))), claim)
  }

  class ThreadHeap {
    const t: seq<nat>                       // BIN_SIZES
    var heads: map<PageId, Head>
    var pages: seq<seq<PageId>>
    var orphans: set<PageId>
    var direct: seq<PageId>
    var freeSlices: set<nat>
    var mapped: map<nat, PageId>
    var retiredMin: nat
    var retiredMax: nat
    var nextId: PageId
    ghost var users: map<nat, Piece>

    constructor (t: seq<nat>, arena: set<nat>)
      requires IsBinSizes(t)
      ensures Valid() && users == map[] && heads == map[] && freeSlices == arena
    {
      this.t := t;
      heads, mapped, users, orphans := map[], map[], map[], {};
      pages := seq(BIN_COUNT, _ => []);
      direct := seq(PAGES_DIRECT, _ => 0);
      freeSlices, retiredMin, retiredMax, nextId := arena, BIN_FULL, 0, 1;
    }

    ghost function V(): View
      reads this
    {
      View(heads, pages, orphans, direct, freeSlices, mapped, users)
    }

    ghost predicate Valid()
      reads this
    {
      && IsBinSizes(t) && Inv(t, V())
      && retiredMin <= BIN_FULL && retiredMax < BIN_COUNT
      && nextId > 0 && forall p :: p in heads ==> p < nextId
    }

    /// Page `p` is linked at place `at` of its queue.
    ghost predicate LinkedAt(p: PageId, at: nat)
      requires Valid()
      reads this
    {
      p in heads && p !in orphans && at < |pages[heads[p].bin]| && pages[heads[p].bin][at] == p
    }

    /// No run for a page of the class of `w` words.
    ghost predicate NoRunFor(w: nat, arenas: Arenas, mapOk: bool)
      reads this
    {
      0 <= WBin(w) < |t| && NoRun(arenas, freeSlices, PageSlicesFor(t[WBin(w)]), mapOk)
    }

    /// The one run that the request needs is not to be had, or there is no
    /// memory for a huge page's header. A request whose rounding overflows asks
    /// for an empty run, which no arena gives.
    ghost predicate RequestRefused(size: Word, arenas: Arenas, mapOk: bool, metaOk: bool)
      reads this
    {
      if Clamped(size) > 8 * MAX_WSIZE then
        !metaOk || NoRun(arenas, freeSlices, HugeSlices(Clamped(size)), mapOk)
      else NoRunFor(WSize(Clamped(size)), arenas, mapOk)
    }

    // ----- operations on one page -------------------------------------------

    /// Stores a page's header back; the page keeps its live blocks.
    method SetHead(p: PageId, h: Head)
      requires Valid() && p in heads
      requires SameShape(heads[p], h) && KeepsLive(heads[p], h) && WellFormed(Reserved(heads[p]), h.q)
      modifies this`heads
      ensures Valid() && OnlyAt(old(heads), heads, p) && heads[p] == h
      ensures h.q.live == old(heads)[p].q.live ==> Evolves(old(V()), V())
    {
      HeadChanged(t, V(), p, h);
      OnlyAtUpdate(heads, p, h);
      if h.q.live == heads[p].q.live { HeadEvolves(V(), p, h); }
      heads := heads[p := h];
    }

    method CollectFree(p: PageId)
      requires Valid() && p in heads
      modifies this`heads
      ensures Valid() && Evolves(old(V()), V())
      ensures OnlyAt(old(heads), heads, p)
      ensures heads[p] == old(heads)[p].(q := Collected(old(heads)[p].q))
    {
      CollectedWellFormed(Reserved(heads[p]), heads[p].q);
      SetHead(p, heads[p].(q := Collected(heads[p].q)));
    }

    method SetRetire(p: PageId, n: nat)
      requires Valid() && p in heads
      modifies this`heads
      ensures Valid() && Evolves(old(V()), V())
      ensures OnlyAt(old(heads), heads, p) && heads[p] == old(heads)[p].(retire := n)
    {
      SetHead(p, heads[p].(retire := n));
    }

    /// Full iff every block the page can ever hold is live.
    method IsFull(p: PageId) returns (full: bool)
      requires Valid() && p in heads
      modifies this`heads
      ensures Valid() && Evolves(old(V()), V())
      ensures OnlyAt(old(heads), heads, p)
      ensures var h := old(heads)[p]; heads[p] == if h.q.free != [] then h else h.(q := Collected(h.q))
      ensures full <==> AllLive(old(heads)[p])
    {
      var h := heads[p];
      FullMeansAllLive(h);
      if h.q.free != [] { return false; }
      CollectFree(p);
      var h1 := heads[p];
      return h1.q.free == [] && h1.q.capacity >= Reserved(h1);
    }

    /// The block is not live before, and the only one to become so; none comes
    /// only when all are live.
    method AllocFrom(p: PageId) returns (r: Option<Block>)
      requires Valid() && p in heads
      modifies this`heads
      ensures Valid()
      ensures OnlyAt(old(heads), heads, p) && heads[p] == old(heads)[p].(q := heads[p].q)
      ensures r.None? ==> AllLive(old(heads)[p]) && heads[p].q.live == old(heads)[p].q.live
      ensures r.Some? ==> r.value !in old(heads)[p].q.live && r.value < Reserved(old(heads)[p])
      ensures r.Some? ==> heads[p].q.live == old(heads)[p].q.live + multiset{r.value}
      ensures r.None? <==> AllLive(old(heads)[p])
      ensures PoppedFrom(old(heads)[p], heads[p].q, r)
    {
      var h := heads[p];
      AllocatedBlock(h);
      var q := Refilled(Cfg(h), h.q);
      if q.free == [] {
        SetHead(p, h.(q := q));
        return None;
      }
      SetHead(p, h.(q := Pop(q)));
      return Some(q.free[0]);
    }

    // ----- releasing --------------------------------------------------------

    method ClearDirect(p: PageId)
      requires |direct| == PAGES_DIRECT
      modifies this`direct
      ensures direct == WithoutPage(old(direct), p)
    {
      var w := 0;
      while w < PAGES_DIRECT
        invariant w <= PAGES_DIRECT == |direct|
        invariant forall k :: 0 <= k < w ==> direct[k] == WithoutPage(old(direct), p)[k]
        invariant forall k :: w <= k < PAGES_DIRECT ==> direct[k] == old(direct)[k]
      {
        if direct[w] == p { direct := direct[w := 0]; }
        w := w + 1;
      }
    }

    method UninstallPage(p: PageId)
      requires p in heads
      modifies this`heads, this`orphans, this`freeSlices, this`mapped
      ensures V() == Released(old(V()), p)
    {
      var h := heads[p];
      mapped := mapped - Slices(h.slice, h.count);
      freeSlices := freeSlices + Slices(h.slice, h.count);
      heads := heads - {p};
      orphans := orphans - {p};
    }

    /// Gives the slices of an unlinked empty page back.
    method ReleaseSlices(p: PageId)
      requires Valid() && p in orphans && heads[p].q.used == 0
      modifies this`heads, this`orphans, this`freeSlices, this`mapped
      ensures Valid() && Evolves(old(V()), V()) && V() == Released(old(V()), p)
    {
      NoneUsed(Reserved(heads[p]), heads[p].q);
      PageReleased(t, V(), p);
      UninstallPage(p);
    }

    method Unlink(p: PageId, ghost at: nat)
      requires Valid() && LinkedAt(p, at)
      modifies this`pages, this`direct, this`orphans
      ensures Valid() && Evolves(old(V()), V()) && V() == Orphaned(old(V()), p, at)
    {
      PageOrphaned(t, V(), p, at);
      var b := heads[p].bin;
      ClearDirect(p);
      var i := 0;
      while pages[b][i] != p
        invariant i <= at && pages == old(pages) && Q.Distinct(pages[b])
        decreases at - i
      {
        i := i + 1;
      }
      assert i == at;
      pages := pages[b := Q.Without(pages[b], i)];
      orphans := orphans + {p};
    }

    /// Unlink and release: direct slots, queue, page map and arena.
    method ReleaseLinked(p: PageId, ghost at: nat)
      requires Valid() && LinkedAt(p, at) && heads[p].q.used == 0
      modifies this
      ensures Valid() && Evolves(old(V()), V()) && V() == Released(Orphaned(old(V()), p, at), p)
      ensures retiredMin == old(retiredMin) && retiredMax == old(retiredMax) && nextId == old(nextId)
    {
      Unlink(p, at);
      ghost var v1 := V();
      ReleaseSlices(p);
      EvolvesTrans(old(V()), v1, V());
    }

    method ArmRetire(p: PageId)
      requires Valid() && p in heads && heads[p].bin < BIN_HUGE
      modifies this`heads, this`retiredMin, this`retiredMax
      ensures Valid() && Evolves(old(V()), V())
      ensures OnlyAt(old(heads), heads, p) && heads[p] == old(heads)[p].(retire := Cycles(old(heads)[p]))
      ensures retiredMin <= heads[p].bin <= retiredMax
      ensures retiredMin <= old(retiredMin) && old(retiredMax) <= retiredMax
    {
      SetRetire(p, Cycles(heads[p]));
      TrackRetired(heads[p].bin);
    }

    /// The range of bins that the sweep visits takes in `bin`.
    method TrackRetired(bin: nat)
      requires Valid() && bin < BIN_HUGE
      modifies this`retiredMin, this`retiredMax
      ensures Valid() && retiredMin <= bin <= retiredMax
      ensures retiredMin == (if bin < old(retiredMin) then bin else old(retiredMin))
      ensures retiredMax == (if bin > old(retiredMax) then bin else old(retiredMax))
    {
      if bin < retiredMin { retiredMin := bin; }
      if bin > retiredMax { retiredMax := bin; }
    }

    /// An emptied page: the sole page of a bin is kept with its countdown
    /// armed, any other is released at once.
    method RetirePage(p: PageId, ghost at: nat)
      requires Valid() && LinkedAt(p, at) && heads[p].q.used == 0
      modifies this
      ensures Valid() && Evolves(old(V()), V()) && nextId == old(nextId)
      ensures p in heads <==> old(heads)[p].retire != 0 || Sole(old(V()), p)
      ensures p !in heads ==> V() == Released(Orphaned(old(V()), p, at), p)
      ensures p in heads ==> V() == old(V()).(heads := heads) && OnlyAt(old(heads), heads, p)
      ensures p in heads && old(heads)[p].retire != 0 ==> heads == old(heads)
      ensures p in heads ==> heads[p].retire != 0 && heads[p].q == old(heads)[p].q
      ensures p in heads && old(heads)[p].retire == 0 ==>
                heads[p] == old(heads)[p].(retire := Cycles(heads[p])) && retiredMin <= heads[p].bin <= retiredMax
      ensures retiredMin <= old(retiredMin) && old(retiredMax) <= retiredMax
    {
      var h := heads[p];
      if h.retire != 0 { return; }
      if h.bin != BIN_HUGE && |pages[h.bin]| <= 1 {
        ArmRetire(p);
        return;
      }
      ReleaseLinked(p, at);
    }

    // ----- finding a page ---------------------------------------------------

    /// Adopts an abandoned page of the bin: front of the queue, drained.
    method TryReclaim(p: PageId)
      requires Valid() && p in orphans
      modifies this`heads, this`orphans, this`pages
      ensures Valid() && Evolves(old(V()), V())
      ensures OnlyAt(old(heads), heads, p) && orphans == old(orphans) - {p}
      ensures heads[p] == old(heads)[p].(q := Collected(old(heads)[p].q))
      ensures heads[p].bin < |old(pages)| && pages == old(pages)[heads[p].bin := [p] + old(pages)[heads[p].bin]]
      ensures OtherBinsKept(old(V()), V(), heads[p].bin)
    {
      ghost var v0 := V();
      PageAdopted(t, v0, p);
      JoinQueue(p);
      CollectFree(p);
      JoinedOthers(t, v0, V(), p, heads[p].bin);
    }

    method JoinQueue(p: PageId)
      requires p in heads && heads[p].bin < |pages|
      modifies this`orphans, this`pages
      ensures orphans == old(orphans) - {p}
      ensures pages == old(pages)[heads[p].bin := [p] + old(pages)[heads[p].bin]]
    {
      orphans := orphans - {p};
      pages := pages[heads[p].bin := [p] + pages[heads[p].bin]];
    }

    /// A page with a block to serve is no longer retired.
    method TryPage(p: PageId) returns (has: bool)
      requires Valid() && p in heads
      modifies this`heads
      ensures Valid() && Evolves(old(V()), V())
      ensures OnlyAt(old(heads), heads, p)
      ensures has <==> !AllLive(old(heads)[p])
      ensures has ==> !AllLive(heads[p]) && heads[p].retire == 0
      ensures var h := old(heads)[p];
        heads[p] == h.(q := if h.q.free != [] then h.q else Collected(h.q), retire := if has then 0 else h.retire)
    {
      ghost var v0 := V();
      var full := IsFull(p);
      has := !full;
      if has && heads[p].retire != 0 {
        ghost var v1 := V();
        SetRetire(p, 0);
        EvolvesTrans(v0, v1, V());
        OnlyAtTrans(v0.heads, v1.heads, heads, p);
      }
      EvolvesFull(v0, V(), p);
    }

    /// First fit: the first page of the queue with a block to serve, its
    /// countdown cancelled; every page before it has all its blocks live.
    method ScanQueue(b: nat) returns (r: Option<PageId>, ghost at: nat)
      requires Valid() && b < BIN_COUNT
      modifies this`heads
      ensures Valid() && Evolves(old(V()), V()) && at <= |pages[b]|
      ensures forall j :: 0 <= j < at ==> AllLive(old(heads)[pages[b][j]])
      ensures r.None? <==> at == |pages[b]|
      ensures r.Some? ==> r.value == pages[b][at] && r.value in heads && !AllLive(old(heads)[r.value])
      ensures r.Some? ==> !AllLive(heads[r.value]) && heads[r.value].retire == 0
      ensures OtherBinsKept(old(V()), V(), b)
    {
      ghost var v0 := V();
      QueueFacts(t, v0, b);
      AllBinsSame(t, v0);
      var queue := pages[b];
      var i := 0;
      while i < |queue|
        invariant Valid() && Evolves(v0, V())
        invariant Scanned(v0.heads, heads, queue, i) && OtherBinsKept(v0, V(), b)
      {
        var p := queue[i];
        ghost var v1 := V();
        var has := TryPage(p);
        EvolvesTrans(v0, v1, V());
        OthersUntouched(t, v1, V(), p);
        OtherBinsTrans(v0, v1, V(), b);
        if has { return Some(p), i; }
        ScanStep(v0.heads, v1.heads, heads, queue, i);
        i := i + 1;
      }
      return None, i;
    }

    /// The same, in terms of the whole heap.
    method ScanPages(b: nat) returns (r: Option<PageId>)
      requires Valid() && b < BIN_COUNT
      modifies this`heads
      ensures Valid() && Evolves(old(V()), V())
      ensures r.None? <==> AllBusy(old(V()), b)
      ensures r.Some? ==> HasRoom(old(V()), b, r.value)
      ensures r.Some? ==> r.value in heads && !AllLive(heads[r.value]) && heads[r.value].retire == 0
      ensures r.Some? ==> r.value !in orphans && heads[r.value].bin == b
      ensures OtherBinsKept(old(V()), V(), b)
    {
      ghost var v0 := V();
      QueueFacts(t, v0, b);
      ghost var at;
      r, at := ScanQueue(b);
      QueueScanned(v0, b, at);
      QueueFacts(t, V(), b);
    }

    /// The first page of the queue with a block to serve, its countdown cancelled,
    /// or else the abandoned page claimed, if any.
    method FindFreePage(b: nat, claim: Option<PageId>) returns (r: Option<PageId>)
      requires Valid() && b < BIN_COUNT
      requires claim.Some? ==> claim.value in orphans && heads[claim.value].bin == b
      modifies this`heads, this`orphans, this`pages
      ensures Valid() && Evolves(old(V()), V())
      ensures r.None? <==> AllBusy(old(V()), b) && claim.None?
      ensures r.Some? ==> PageFound(old(V()), V(), b, claim, r.value, nextId)
      ensures r.Some? ==> r.value !in orphans && heads[r.value].bin == b
      ensures !AllBusy(old(V()), b) ==> heads[r.value].retire == 0
      ensures OtherBinsKept(old(V()), V(), b)
    {
      ghost var v0 := V();
      r := ScanPages(b);
      if r.None? && claim.Some? {
        ReclaimFor(b, claim.value, v0);
        r := claim;
      }
    }

    /// The queue had nothing to serve.
    method ReclaimFor(b: nat, p: PageId, ghost v0: View)
      requires Valid() && Evolves(v0, V()) && AllBusy(v0, b) && freeSlices == v0.free
      requires p in v0.heads && v0.heads[p].bin == b && p in orphans && OtherBinsKept(v0, V(), b)
      modifies this`heads, this`orphans, this`pages
      ensures Valid() && Evolves(v0, V()) && PageFound(v0, V(), b, Some(p), p, nextId)
      ensures p !in orphans && heads[p].bin == b && OtherBinsKept(v0, V(), b)
    {
      ghost var v1 := V();
      assert PageEvolves(v0.heads[p], heads, p);
      TryReclaim(p);
      ClaimFound(v0, v1, V(), b, p, nextId);
      OtherBinsTrans(v0, v1, V(), b);
    }

    // ----- new pages --------------------------------------------------------

    /// A run of the arena that the page map takes, or nothing, with the arena
    /// as before.
    method CarveRun(n: nat, arenas: Arenas, mapOk: bool) returns (r: Option<nat>)
      requires Valid() && ArenasOk(arenas)
      ensures r.Some? ==> Slices(r.value, n) <= freeSlices && r.value + n <= MAX_SLICES
      ensures r.Some? ==> n >= 1
      ensures r.None? ==> NoRun(arenas, freeSlices, n, mapOk)
    {
      r := arenas(freeSlices, n);
      assert r.Some? ==> n >= 1 && Slices(arenas(freeSlices, n).value, n) <= freeSlices;
      if r.Some? && !(mapOk && r.value + n <= MAX_SLICES) {
        r := None;
      }
    }

    method InstallPage(p: PageId, h: Head)
      requires Inv(t, V()) && p > 0 && p !in heads && HeadOk(t, h) && Slices(h.slice, h.count) <= freeSlices
      modifies this`heads, this`pages, this`freeSlices, this`mapped
      ensures h.bin < BIN_COUNT && V() == Carved(old(V()), p, h) && Inv(t, V())
      ensures forall u: nat :: InRun(h, u) ==> u !in old(mapped)
    {
      PageCarved(t, V(), p, h);
      StorePage(p, h);
    }

    method StorePage(p: PageId, h: Head)
      requires h.bin < |pages|
      modifies this`heads, this`pages, this`freeSlices, this`mapped
      ensures V() == Carved(old(V()), p, h)
    {
      heads := heads[p := h];
      freeSlices := freeSlices - Slices(h.slice, h.count);
      mapped := Registered(mapped, h.slice, h.count, p);
      pages := pages[h.bin := [p] + pages[h.bin]];
    }

    /// The run was never mapped, and the new page is in front of its queue.
    method LinkPage(h: Head) returns (p: PageId)
      requires Valid() && HeadOk(t, h) && Slices(h.slice, h.count) <= freeSlices
      modifies this`heads, this`pages, this`freeSlices, this`mapped, this`nextId
      ensures Valid() && p == old(nextId) && p !in old(heads)
      ensures h.bin < BIN_COUNT && V() == Carved(old(V()), p, h)
      ensures forall u: nat :: InRun(h, u) ==> u !in old(mapped)
    {
      p := nextId;
      InstallPage(p, h);
      nextId := nextId + 1;
    }

    /// A page of the class of `w` words, with nothing threaded yet.
    method NewPage(w: nat, arenas: Arenas, mapOk: bool) returns (r: Option<PageId>)
      requires Valid() && ArenasOk(arenas) && 0 < w <= MAX_WSIZE
      modifies this`heads, this`pages, this`freeSlices, this`mapped, this`nextId
      ensures Valid()
      ensures r.None? ==> V() == old(V()) && NoRunFor(w, arenas, mapOk)
      ensures r.Some? ==> SameLive(old(V()), V()) && direct == old(direct)
      ensures r.Some? ==> Serving(V(), r.value, w) && !AllLive(heads[r.value])
      ensures r.Some? ==> heads[r.value] == FreshHead(WBin(w), t[WBin(w)], heads[r.value].slice)
      ensures r.Some? ==> heads[r.value].retire == 0 && !heads[r.value].interior
      ensures r.Some? ==> V() == Carved(old(V()), r.value, heads[r.value]) && r.value == old(nextId)
      ensures 0 <= WBin(w) < BIN_COUNT && OneMorePage(old(V()), V(), WBin(w), old(nextId))
    {
      ClassFacts(t, w);
      AllBinsSame(t, V());
      var bs := t[WBin(w)];
      var run := CarveRun(PageSlicesFor(bs), arenas, mapOk);
      if run.Some? {
        var h := FreshHead(WBin(w), bs, run.value);
        FreshHeadOk(t, w, run.value);
        CarvedLive(V(), nextId, h);
        OneMoreCarved(t, V(), nextId, h);
        var p := LinkPage(h);
        r := Some(p);
      } else {
        r := None;
      }
    }

    /// One block as a page of its own, served at once; none for a size whose
    /// rounding overflows.
    method AllocHuge(size: Word, arenas: Arenas, mapOk: bool, metaOk: bool) returns (r: Option<PageId>)
      requires Valid() && ArenasOk(arenas) && 8 * MAX_WSIZE < size
      modifies this`heads, this`pages, this`freeSlices, this`mapped, this`nextId
      ensures Valid()
      ensures r.None? ==> V() == old(V()) && (NoRun(arenas, freeSlices, HugeSlices(size), mapOk) || !metaOk)
      ensures r.Some? ==> size + SLICE_SIZE <= LIMIT
      ensures r.Some? ==> Serves(old(V()), V(), r.value, 0)
      ensures r.Some? ==> ServedFrom(V(), Served(r.value, 0), HugeBlock(size))
      ensures r.Some? ==> heads[r.value] == HugeHead(size, heads[r.value].slice)
      ensures r.Some? ==> heads[r.value].retire == 0 && !heads[r.value].interior
      ensures r.Some? ==> V() == Carved(old(V()), r.value, heads[r.value]) && r.value == old(nextId)
    {
      HugeWraps(size);
      var run := CarveRun(HugeSlices(size), arenas, mapOk);
      if run.None? || !metaOk { return None; }
      var h := HugeHead(size, run.value);
      HugeHeadOk(t, size, run.value);
      CarvedLive(V(), nextId, h);
      var p := LinkPage(h);
      return Some(p);
    }

    // ----- the retired pages ------------------------------------------------

    /// The body of the sweep for one bin; `keep` if its countdown goes on.
    method SweepBin(b: nat, force: bool) returns (keep: bool)
      requires Valid() && b < BIN_COUNT
      modifies this
      ensures Valid() && Evolves(old(V()), V()) && Swept(old(V()), V(), b, force)
      ensures retiredMin == old(retiredMin) && retiredMax == old(retiredMax) && nextId == old(nextId)
      ensures OtherBinsKept(old(V()), V(), b)
      ensures keep <==> StillRetired(old(V()), V(), b)
    {
      ghost var v0 := V();
      AllBinsSame(t, v0);
      QueueFacts(t, v0, b);
      if pages[b] == [] { return false; }
      var p := pages[b][0];
      var expire := heads[p].retire;
      if expire == 0 {
        HeadSwept(t, v0, v0, b, force);
        return false;
      }
      if heads[p].q.used == 0 && (expire - 1 == 0 || force) {
        SweepOut(p, b, force);
        return false;
      }
      keep := heads[p].q.used == 0;
      SetRetire(p, if keep then expire - 1 else 0);
      HeadSwept(t, v0, V(), b, force);
      OthersUntouched(t, v0, V(), p);
    }

    method SweepOut(p: PageId, b: nat, force: bool)
      requires Valid() && LinkedAt(p, 0) && heads[p].bin == b && heads[p].q.used == 0
      requires heads[p].retire != 0 && (force || heads[p].retire == 1)
      modifies this
      ensures Valid() && Evolves(old(V()), V()) && Swept(old(V()), V(), b, force)
      ensures retiredMin == old(retiredMin) && retiredMax == old(retiredMax) && nextId == old(nextId)
      ensures OtherBinsKept(old(V()), V(), b) && !StillRetired(old(V()), V(), b)
    {
      ghost var v0 := V();
      FrontReleased(t, v0, b, force);
      ReleaseOthers(t, v0, p);
      ReleaseLinked(p, 0);
    }

    /// The next bin of a sweep from bin `lo`.
    method SweepNext(b: nat, force: bool, min: nat, max: nat, ghost v0: View, ghost lo: nat)
      returns (min': nat, max': nat)
      requires Valid() && lo <= b < BIN_COUNT && SweptTo(v0, V(), lo, b, force, min, max)
      requires Tracked(v0, V(), lo, b, min, max) && (min > max ==> min == BIN_FULL)
      requires min <= BIN_FULL && max < BIN_COUNT
      modifies this
      ensures Valid() && SweptTo(v0, V(), lo, b + 1, force, min', max') && nextId == old(nextId)
      ensures Tracked(v0, V(), lo, b + 1, min', max') && (min' > max' ==> min' == BIN_FULL)
      ensures min' <= BIN_FULL && max' < BIN_COUNT
    {
      ghost var v1 := V();
      var keep := SweepBin(b, force);
      min', max' := min, max;
      if keep {
        if b < min { min' := b; }
        if b > max { max' := b; }
      }
      TrackStep(v0, v1, V(), lo, b, min, max, keep, min', max');
      SweepStep(v0, v1, V(), lo, b, force, min, max, keep, min', max');
    }

    /// One sweep of the tracked bins; bins whose front page keeps counting
    /// down stay tracked.
    method CollectRetired(force: bool)
      requires Valid()
      modifies this
      ensures Valid() && Evolves(old(V()), V()) && nextId == old(nextId)
      ensures RangeSwept(old(V()), V(), old(retiredMin), old(retiredMax), force, retiredMin, retiredMax)
    {
      ghost var v0 := V();
      var lo, hi := retiredMin, retiredMax;
      var min: nat, max: nat := BIN_FULL, 0;
      SweepFirst(t, v0, lo, force, min);
      var b := lo;
      while b <= hi
        invariant lo <= b && (b <= hi + 1 || b == lo) && hi < BIN_COUNT && min <= BIN_FULL && max < BIN_COUNT
        invariant Valid() && SweptTo(v0, V(), lo, b, force, min, max) && nextId == old(nextId)
        invariant Tracked(v0, V(), lo, b, min, max) && (min > max ==> min == BIN_FULL)
      {
        min, max := SweepNext(b, force, min, max, v0, lo);
        b := b + 1;
      }
      SweepDone(v0, V(), lo, hi, b, force, min, max);
      StoreRange(min, max);
    }

    method StoreRange(min: nat, max: nat)
      requires Valid() && min <= BIN_FULL && max < BIN_COUNT
      modifies this`retiredMin, this`retiredMax
      ensures Valid() && retiredMin == min && retiredMax == max
    {
      retiredMin, retiredMax := min, max;
    }

    // ----- allocation -------------------------------------------------------

    /// A linked page of the class: found, reclaimed, or new after a sweep.
    method PageFor(w: nat, arenas: Arenas, mapOk: bool, claim: Option<PageId>) returns (r: Option<PageId>)
      requires Valid() && ArenasOk(arenas) && 0 < w <= MAX_WSIZE && 0 <= WBin(w) < BIN_COUNT
      requires claim.Some? ==> claim.value in orphans && heads[claim.value].bin == WBin(w)
      modifies this
      ensures Valid() && SameLive(old(V()), V())
      ensures r.None? ==> NoRunFor(w, arenas, mapOk) && AllBusy(old(V()), WBin(w)) && claim.None?
      ensures r.Some? ==> Serving(V(), r.value, w)
      ensures r.Some? ==> PageFound(old(V()), V(), WBin(w), claim, r.value, old(nextId))
      ensures r.Some? && (claim.Some? || !AllBusy(old(V()), WBin(w))) ==> nextId == old(nextId)
      ensures OthersAfter(old(V()), V(), WBin(w), claim, old(retiredMin), old(retiredMax))
    {
      ghost var v0 := V();
      r := FindFreePage(WBin(w), claim);
      if r.Some? {
        ServingSize(t, V(), r.value, w);
        EvolvesLive(v0, V());
        return;
      }
      ghost var v1 := V();
      ghost var lo, hi := retiredMin, retiredMax;
      CollectRetired(false);
      EvolvesTrans(v0, v1, V());
      ghost var v2 := V();
      EvolvesLive(v0, v2);
      SweptLater(v0, v1, v2, WBin(w), lo, hi);
      ghost var id := nextId;
      r := NewPage(w, arenas, mapOk);
      SameLiveTrans(v0, v2, V());
      SweptThenMore(v0, v2, V(), WBin(w), lo, hi, id);
    }

    method ServeFrom(p: PageId) returns (r: Option<Served>)
      requires Valid() && p in heads && p !in orphans
      modifies this`heads
      ensures Valid() && OnlyAt(old(heads), heads, p) && SameShape(old(heads)[p], heads[p])
      ensures r.None? <==> AllLive(old(heads)[p])
      ensures r.None? ==> SameLive(old(V()), V()) && heads[p].q.live == old(heads)[p].q.live
      ensures r.Some? ==> r.value.page == p && ServedFrom(V(), r.value, old(heads)[p].bs)
      ensures r.Some? ==> Serves(old(V()), V(), p, r.value.block)
      ensures PageOnly(old(V()), V(), heads[p].bin)
    {
      ghost var v0 := V();
      var b := AllocFrom(p);
      OthersUntouched(t, v0, V(), p);
      if b.None? {
        NoneServed(v0, V(), p);
        r := None;
      } else {
        OneServed(v0, V(), p, b.value);
        r := Some(Served(p, b.value));
      }
    }

    method SetDirect(w: nat, p: PageId)
      requires Valid() && 0 < w <= MAX_WSIZE && Serving(V(), p, w)
      modifies this`direct
      ensures Valid() && direct == if w <= SMALL_WSIZE_MAX then old(direct)[w := p] else old(direct)
    {
      if w <= SMALL_WSIZE_MAX {
        CacheSet(t, V(), w, p);
        direct := direct[w := p];
      }
    }

    /// Serves from a page of the class, and caches it; none if all its blocks
    /// are live.
    method ServeCached(w: nat, p: PageId, ghost v0: View) returns (r: Option<Served>)
      requires Valid() && 0 < w <= MAX_WSIZE && Serving(V(), p, w) && SameLive(v0, V())
      modifies this`heads, this`direct
      ensures Valid()
      ensures r.None? <==> AllLive(old(heads)[p])
      ensures r.None? ==> SameLive(v0, V())
      ensures r.Some? ==> r.value.page == p && Serves(v0, V(), r.value.page, r.value.block)
      ensures r.Some? ==> 0 <= WBin(w) < |t| && ServedFrom(V(), r.value, t[WBin(w)])
      ensures r.Some? ==> Cached(direct, w, r.value.page)
      ensures 0 <= WBin(w) && PageOnly(old(V()), V(), WBin(w))
    {
      ghost var v1 := V();
      ServingSize(t, v1, p, w);
      r := ServeFrom(p);
      if r.None? {
        SameLiveTrans(v0, v1, V());
      } else {
        ServedLater(v0, v1, V(), r.value.page, r.value.block);
        ghost var v2 := V();
        SetDirect(w, p);
        StillPageOnly(v1, v2, V(), WBin(w));
      }
    }

    /// A request above the direct cache, or one the cached page could not serve.
    method AllocGeneric(w: nat, arenas: Arenas, mapOk: bool, claim: Option<PageId>) returns (r: Option<Served>)
      requires Valid() && ArenasOk(arenas) && 0 < w <= MAX_WSIZE && 0 <= WBin(w) < BIN_COUNT
      requires claim.Some? ==> claim.value in orphans && heads[claim.value].bin == WBin(w)
      modifies this
      ensures Valid()
      ensures r.None? ==> SameLive(old(V()), V()) && NoRunFor(w, arenas, mapOk)
      ensures r.None? ==> NothingToServe(old(V()), WBin(w), claim)
      ensures r.Some? ==> Serves(old(V()), V(), r.value.page, r.value.block)
      ensures r.Some? ==> ServedFrom(V(), r.value, t[WBin(w)])
      ensures r.Some? ==> Cached(direct, w, r.value.page)
      ensures r.Some? ==> Chosen(old(V()), WBin(w), claim, r.value.page, old(nextId))
      ensures r.Some? && r.value.page in old(heads) ==> freeSlices == old(freeSlices)
      ensures OthersAfter(old(V()), V(), WBin(w), claim, old(retiredMin), old(retiredMax))
    {
      ghost var v0, lo, hi := V(), retiredMin, retiredMax;
      var pg := PageFor(w, arenas, mapOk, claim);
      if pg.Some? {
        ghost var v1 := V();
        r := ServeCached(w, pg.value, v0);
        ServedOthers(v0, v1, V(), WBin(w), claim, lo, hi);
        if r.None? {
          ghost var v2, id := V(), nextId;
          r := ServeNew(w, arenas, mapOk, v0);
          MoreOthers(v0, v2, V(), WBin(w), claim, lo, hi, id);
        }
      } else {
        r := None;
      }
    }

    /// A reclaimed page can be full still; a new one never is.
    method ServeNew(w: nat, arenas: Arenas, mapOk: bool, ghost v0: View) returns (r: Option<Served>)
      requires Valid() && ArenasOk(arenas) && 0 < w <= MAX_WSIZE && 0 <= WBin(w) < BIN_COUNT
      requires SameLive(v0, V())
      modifies this
      ensures Valid()
      ensures r.None? ==> SameLive(v0, V()) && NoRunFor(w, arenas, mapOk)
      ensures r.Some? ==> Serves(v0, V(), r.value.page, r.value.block) && r.value.page == old(nextId)
      ensures r.Some? ==> ServedFrom(V(), r.value, t[WBin(w)])
      ensures r.Some? ==> Cached(direct, w, r.value.page)
      ensures OneMorePage(old(V()), V(), WBin(w), old(nextId))
    {
      ghost var v1, id := V(), nextId;
      var pg := NewPage(w, arenas, mapOk);
      if pg.Some? {
        ghost var v2 := V();
        SameLiveTrans(v0, v1, v2);
        r := ServeCached(w, pg.value, v0);
        OneMoreServed(v1, v2, V(), WBin(w), id);
      } else {
        r := None;
      }
    }

    /// The page that last served `w` words, if it still can.
    method TryDirect(w: nat) returns (r: Option<Served>)
      requires Valid() && 0 < w <= MAX_WSIZE && 0 <= WBin(w) < BIN_COUNT
      modifies this`heads
      ensures Valid()
      ensures r.None? ==> SameLive(old(V()), V()) && SameRoom(old(V()), V())
      ensures r.Some? <==> DirectHit(old(V()), w)
      ensures r.Some? ==> r.value.page == direct[w]
      ensures r.Some? ==> Serves(old(V()), V(), r.value.page, r.value.block)
      ensures r.Some? ==> ServedFrom(V(), r.value, t[WBin(w)])
      ensures r.Some? ==> Cached(direct, w, r.value.page)
    {
      if w > SMALL_WSIZE_MAX || direct[w] == 0 { return None; }
      var p := direct[w];
      assert CacheFits(heads[p], w);
      ServingSize(t, V(), p, w);
      ghost var v0 := V();
      r := ServeFrom(p);
      if r.None? { OneRoomSame(v0, V(), p); }
    }

    /// alloc_impl: the cached page first, then the slow paths.
    method AllocBlock(size: Word, arenas: Arenas, mapOk: bool, metaOk: bool, claim: Option<PageId>)
      returns (r: Option<Served>)
      requires Valid() && ArenasOk(arenas)
      requires claim.Some? ==> claim.value in orphans && heads[claim.value].bin == Bin(Clamped(size))
      modifies this
      ensures Valid()
      ensures r.None? ==> SameLive(old(V()), V()) && RequestRefused(size, arenas, mapOk, metaOk)
      ensures r.Some? ==> size + SLICE_SIZE <= LIMIT
      ensures r.Some? ==> Serves(old(V()), V(), r.value.page, r.value.block)
      ensures r.Some? ==> ServedFrom(V(), r.value, BlockSizeFor(t, size))
      ensures r.Some? ==> Cached(direct, WSize(Clamped(size)), r.value.page)
      ensures r.None? ==> NoneCanServe(old(V()), size, claim)
      ensures r.Some? ==> RightPage(old(V()), size, claim, r.value.page, old(nextId))
      ensures r.Some? && r.value.page in old(heads) ==> freeSlices == old(freeSlices)
    {
      var s := Clamped(size);
      RequestFacts(t, size);
      if s > 8 * MAX_WSIZE {
        var p := AllocHuge(s, arenas, mapOk, metaOk);
        if p.None? { return None; }
        return Some(Served(p.value, 0));
      }
      r := AllocClassed(WSize(s), arenas, mapOk, claim);
    }

    method AllocClassed(w: nat, arenas: Arenas, mapOk: bool, claim: Option<PageId>) returns (r: Option<Served>)
      requires Valid() && ArenasOk(arenas) && 0 < w <= MAX_WSIZE && 0 <= WBin(w) < BIN_COUNT
      requires claim.Some? ==> claim.value in orphans && heads[claim.value].bin == WBin(w)
      modifies this
      ensures Valid()
      ensures r.None? ==> SameLive(old(V()), V()) && NoRunFor(w, arenas, mapOk)
      ensures r.Some? ==> Serves(old(V()), V(), r.value.page, r.value.block)
      ensures r.Some? ==> ServedFrom(V(), r.value, t[WBin(w)])
      ensures r.Some? ==> Cached(direct, w, r.value.page)
      ensures r.None? ==> NothingToServe(old(V()), WBin(w), claim)
      ensures r.Some? ==> ChosenFor(old(V()), w, claim, r.value.page, old(nextId))
      ensures r.Some? && r.value.page in old(heads) ==> freeSlices == old(freeSlices)
    {
      ghost var v0 := V();
      r := TryDirect(w);
      if r.None? {
        ghost var v1 := V();
        r := AllocGeneric(w, arenas, mapOk, claim);
        AfterMiss(t, v0, v1, V(), WBin(w), claim, r, old(nextId));
      }
    }

    /// Hands out the served block behind `ptr`.
    ghost method HandOut(ptr: nat, x: Piece, v0: View)
      requires Valid() && Inv(t, v0) && Serves(v0, V(), x.page, x.block)
      requires Live(V(), x.page, x.block) && UserOk(heads[x.page], ptr, x)
      modifies this`users
      ensures Valid() && ptr !in v0.users && users == v0.users[ptr := x]
      ensures NoLeak(v0) ==> NoLeak(V())
    {
      ServedUser(t, v0, V(), ptr, x);
      users := users[ptr := x];
    }

    /// A pointer nobody holds, the start of a block with room for `size`; the
    /// pointers already held stay as they are.
    method Alloc(size: Word, arenas: Arenas, mapOk: bool, metaOk: bool, claim: Option<PageId>)
      returns (r: Option<nat>)
      requires Valid() && ArenasOk(arenas)
      requires claim.Some? ==> claim.value in orphans && heads[claim.value].bin == Bin(Clamped(size))
      modifies this
      ensures Valid() && (old(NoLeak(V())) ==> NoLeak(V()))
      ensures r.None? ==> users == old(users) && RequestRefused(size, arenas, mapOk, metaOk)
      ensures r.None? ==> NoneCanServe(old(V()), size, claim)
      ensures size + SLICE_SIZE > LIMIT ==> r.None?
      ensures r.Some? ==> r.value !in old(users) && r.value in users && users[r.value].size == size
      ensures r.Some? ==> users == old(users)[r.value := users[r.value]]
      ensures r.Some? ==> RightPage(old(V()), size, claim, users[r.value].page, old(nextId))
      ensures r.Some? && users[r.value].page in old(heads) ==> freeSlices == old(freeSlices)
    {
      ghost var v0 := V();
      var s := AllocBlock(size, arenas, mapOk, metaOk, claim);
      if s.None? {
        SameLiveLeak(v0, V());
        return None;
      }
      var h := heads[s.value.page];
      BlockSizeCovers(t, size);
      var ptr := BlockAt(h, s.value.block);
      HandOut(ptr, Piece(s.value.page, s.value.block, size), v0);
      return Some(ptr);
    }

    /// The aligned pointer in a block served for `total` bytes.
    method AlignInBlock(p: PageId, b: Block, size: Word, align: Word, ghost total: Word, ghost v0: View)
      returns (q: nat)
      requires Valid() && Inv(t, v0) && Serves(v0, V(), p, b)
      requires IsPow2(align) && AlignedRequest(size, align) == Some(total) && total + SLICE_SIZE <= LIMIT
      requires ServedFrom(V(), Served(p, b), BlockSizeFor(t, total))
      modifies this`heads, this`users
      ensures Valid() && q % align == 0 && q !in v0.users && users == v0.users[q := Piece(p, b, size)]
      ensures NoLeak(v0) ==> NoLeak(V())
      ensures OnlyAt(old(heads), heads, p)
      ensures var h := old(heads)[p]; heads[p] == h.(interior := h.interior || q != BlockAt(h, b))
    {
      var h := heads[p];
      BlockSizeCovers(t, total);
      StartInRange(t, V(), p, b);
      var start := BlockAt(h, b);
      BlockStartAligned(Start(h), b, h.bs, start);
      PointerInBlock(size, align, total, h.bs, start);
      q := AlignedPointer(start, align);
      if q != start { SetInterior(p, v0, b); }
      HandOut(q, Piece(p, b, size), v0);
    }

    /// As `Alloc`, for `align - 1` bytes more if the alignment is above the word
    /// size, and the pointer is aligned; one that is not the start of its block
    /// flags the page. None for a sum that overflows.
    method AllocAligned(size: Word, align: Word, arenas: Arenas, mapOk: bool, metaOk: bool, claim: Option<PageId>)
      returns (r: Option<nat>)
      requires Valid() && ArenasOk(arenas) && IsPow2(align)
      requires claim.Some? ==> claim.value in orphans
      requires claim.Some? ==> heads[claim.value].bin == Bin(Clamped(if align <= 8 then size else size + align - 1))
      modifies this
      ensures Valid() && (old(NoLeak(V())) ==> NoLeak(V()))
      ensures r.None? ==> users == old(users)
      ensures align > 8 && size + align - 1 >= LIMIT ==> r.None? && V() == old(V())
      ensures r.None? && align <= 8 ==>
        RequestRefused(size, arenas, mapOk, metaOk) && NoneCanServe(old(V()), size, claim)
      ensures r.None? && align > 8 && size + align - 1 < LIMIT ==>
        RequestRefused(size + align - 1, arenas, mapOk, metaOk) && NoneCanServe(old(V()), size + align - 1, claim)
      ensures r.Some? ==> r.value % align == 0
      ensures r.Some? ==> r.value !in old(users) && r.value in users && users[r.value].size == size
      ensures r.Some? ==> users == old(users)[r.value := users[r.value]]
      ensures r.Some? ==> RightPage(old(V()), if align <= 8 then size else size + align - 1, claim,
                                    users[r.value].page, old(nextId))
      ensures r.Some? && users[r.value].page in old(heads) ==> freeSlices == old(freeSlices)
    {
      var total := AlignedRequest(size, align);
      if total.None? { return None; }
      assert total.value == if align <= 8 then size else size + align - 1;
      r := AllocTotal(size, align, total.value, arenas, mapOk, metaOk, claim);
    }

    /// An aligned pointer in a block served for `total` bytes.
    method AllocTotal(size: Word, align: Word, total: Word, arenas: Arenas, mapOk: bool, metaOk: bool,
                      claim: Option<PageId>)
      returns (r: Option<nat>)
      requires Valid() && ArenasOk(arenas) && IsPow2(align) && AlignedRequest(size, align) == Some(total)
      requires claim.Some? ==> claim.value in orphans && heads[claim.value].bin == Bin(Clamped(total))
      modifies this
      ensures Valid() && (old(NoLeak(V())) ==> NoLeak(V()))
      ensures r.None? ==> users == old(users)
      ensures r.None? ==> RequestRefused(total, arenas, mapOk, metaOk) && NoneCanServe(old(V()), total, claim)
      ensures r.Some? ==> r.value % align == 0
      ensures r.Some? ==> r.value !in old(users) && r.value in users && users[r.value].size == size
      ensures r.Some? ==> users == old(users)[r.value := users[r.value]]
      ensures r.Some? ==> RightPage(old(V()), total, claim, users[r.value].page, old(nextId))
      ensures r.Some? && users[r.value].page in old(heads) ==> freeSlices == old(freeSlices)
    {
      ghost var v0 := V();
      var s := AllocBlock(total, arenas, mapOk, metaOk, claim);
      if s.None? {
        SameLiveLeak(v0, V());
        r := None;
      } else {
        var q := AlignInBlock(s.value.page, s.value.block, size, align, total, v0);
        r := Some(q);
      }
    }

    method SetInterior(p: PageId, ghost v0: View, ghost b: Block)
      requires Valid() && p in heads && Serves(v0, V(), p, b)
      modifies this`heads
      ensures Valid() && Serves(v0, V(), p, b)
      ensures OnlyAt(old(heads), heads, p) && heads[p] == old(heads)[p].(interior := true)
    {
      SetHead(p, heads[p].(interior := true));
    }

    // ----- freeing ----------------------------------------------------------

    /// The block behind `ptr` goes from the program to the lists `q`.
    method TakeBack(ptr: nat, p: PageId, ghost b: Block, q: Lists)
      requires Valid() && ptr in users && users[ptr].page == p && users[ptr].block == b && p in heads
      requires q.live == heads[p].q.live - multiset{b} && WellFormed(Reserved(heads[p]), q)
      modifies this`heads, this`users
      ensures Valid() && (old(NoLeak(V())) ==> NoLeak(V()))
      ensures V() == old(V()).(heads := old(heads)[p := old(heads)[p].(q := q)], users := old(users) - {ptr})
    {
      var h := heads[p].(q := q);
      PointerReturned(t, V(), ptr, h);
      if NoLeak(V()) { ReturnedLeak(t, V(), ptr, h); }
      StoreBack(ptr, p, h);
    }

    method StoreBack(ptr: nat, p: PageId, h: Head)
      modifies this`heads, this`users
      ensures V() == old(V()).(heads := old(heads)[p := h], users := old(users) - {ptr})
    {
      heads := heads[p := h];
      users := users - {ptr};
    }

    /// The index of the block that a freed pointer leads to, on a page with or
    /// without interior pointers.
    method BlockOf(ptr: nat, p: PageId) returns (b: Block)
      requires Valid() && ptr in users && users[ptr].page == p
      ensures b == users[ptr].block && p in heads && b in heads[p].q.live
    {
      UserMapped(t, V(), ptr);
      ghost var x := users[ptr];
      var h := heads[p];
      FoundBlock(h, ptr, x);
      var addr := if h.interior then RecoverBlockStart(ptr, Start(h), h.bs) else ptr;
      assert addr == BlockAt(h, x.block);
      b := (addr - Start(h)) / h.bs;
    }

    method FreeOwned(ptr: nat, p: PageId, b: Block)
      requires Valid() && ptr in users && users[ptr].page == p && users[ptr].block == b
      requires p in heads && p !in orphans && b in heads[p].q.live
      modifies this
      ensures Valid() && users == old(users) - {ptr} && (old(NoLeak(V())) ==> NoLeak(V()))
      ensures FreedLinked(old(V()), V(), ptr)
    {
      PushWellFormed(Reserved(heads[p]), heads[p].q, b);
      TakeBack(ptr, p, b, Push(heads[p].q, b));
      if heads[p].q.used == 0 { RetireEmpty(p); }
    }

    /// `retire_page`, as it follows a free.
    method RetireEmpty(p: PageId)
      requires Valid() && p in heads && p !in orphans && heads[p].q.used == 0
      modifies this
      ensures Valid() && users == old(users) && (old(NoLeak(V())) ==> NoLeak(V()))
      ensures RetiredNow(old(V()), V(), p)
    {
      ghost var v1 := V();
      ghost var at := LinkedSomewhere(t, v1, p);
      RetirePage(p, at);
      if NoLeak(v1) { EvolvesLeak(v1, V()); }
      RetiredIs(v1, V(), p, at);
    }

    method FreeAbandoned(ptr: nat, p: PageId, b: Block)
      requires Valid() && ptr in users && users[ptr].page == p && users[ptr].block == b
      requires p in heads && p in orphans && b in heads[p].q.live
      modifies this
      ensures Valid() && users == old(users) - {ptr} && (old(NoLeak(V())) ==> NoLeak(V()))
      ensures FreedAbandoned(old(V()), V(), ptr)
    {
      ghost var v0 := V();
      PushedWellFormed(Reserved(heads[p]), heads[p].q, b);
      TakeBack(ptr, p, b, Pushed(heads[p].q, b));
      ghost var v1 := V();
      TryCollectMt(p, b);
      if NoLeak(v1) { EvolvesLeak(v1, V()); }
      PushedThenClaimed(v0, v1, V(), ptr);
    }

    /// Frees any pointer the program holds, given only its address: the other
    /// pointers stay, and a page is released only if it has no live block.
    method Free(ptr: nat)
      requires Valid() && ptr in users
      modifies this
      ensures Valid() && users == old(users) - {ptr} && (old(NoLeak(V())) ==> NoLeak(V()))
      ensures if old(users)[ptr].page in old(orphans) then FreedAbandoned(old(V()), V(), ptr)
              else FreedLinked(old(V()), V(), ptr)
    {
      UserMapped(t, V(), ptr);
      var p := mapped[ptr / SLICE_SIZE];
      var b := BlockOf(ptr, p);
      if p in orphans { FreeAbandoned(ptr, p, b); } else { FreeOwned(ptr, p, b); }
    }

    /// Another thread frees a pointer into one of this heap's pages.
    method ForeignFree(ptr: nat)
      requires Valid() && ptr in users && users[ptr].page !in orphans
      modifies this`heads, this`users
      ensures Valid() && users == old(users) - {ptr} && (old(NoLeak(V())) ==> NoLeak(V()))
      ensures old(users)[ptr].page in old(heads)
      ensures var p, b := old(users)[ptr].page, old(users)[ptr].block;
        V() == old(V()).(heads := old(heads)[p := old(heads)[p].(q := Pushed(old(heads)[p].q, b))],
                         users := old(users) - {ptr})
    {
      UserMapped(t, V(), ptr);
      var p := mapped[ptr / SLICE_SIZE];
      var b := BlockOf(ptr, p);
      PushedWellFormed(Reserved(heads[p]), heads[p].q, b);
      TakeBack(ptr, p, b, Pushed(heads[p].q, b));
    }

    method CollectPartly(p: PageId, b: Block)
      requires Valid() && p in heads && b in heads[p].q.xfree
      modifies this`heads
      ensures Valid() && Evolves(old(V()), V()) && OnlyAt(old(heads), heads, p)
      ensures heads[p] == old(heads)[p].(q := PartlyCollected(old(heads)[p].q, b))
    {
      PartlyWellFormed(Reserved(heads[p]), heads[p].q, b);
      SetHead(p, heads[p].(q := PartlyCollected(heads[p].q, b)));
    }

    /// The first pass takes what lies below `pushed` if the blocks are small, any
    /// other drains the page.
    method DrainClaimed(p: PageId, pushed: Block, first: bool)
      requires Valid() && p in orphans
      requires first ==> heads[p].q.xfree != [] && heads[p].q.xfree[0] == pushed
      modifies this`heads
      ensures Valid() && Evolves(old(V()), V()) && p in orphans && OnlyAt(old(heads), heads, p)
      ensures heads[p] == old(heads)[p].(q := Drained(old(heads)[p], pushed, first))
      ensures heads[p].q.xfree == [] || (first && heads[p].q.used >= 2 && |heads[p].q.xfree| == 1)
    {
      if first && heads[p].bs <= SMALL_SIZE_MAX {
        PartlyLeavesOne(Reserved(heads[p]), heads[p].q, pushed);
        CollectPartly(p, pushed);
      } else {
        CollectFree(p);
      }
    }

    /// One pass over a claimed page, which ends with the page released, or let go
    /// if nothing is left on its stack; the first pass may need another.
    method CollectClaimed(p: PageId, pushed: Block, first: bool) returns (done: bool)
      requires Valid() && p in orphans
      requires first ==> heads[p].q.xfree != [] && heads[p].q.xfree[0] == pushed
      modifies this
      ensures Valid() && Evolves(old(V()), V())
      ensures if done then ClaimEnded(old(V()), V(), p)
              else first && p in orphans && OnlyAt(old(heads), heads, p) && V() == old(V()).(heads := heads)
      ensures p in heads ==>
        && heads[p] == old(heads)[p].(q := Tested(Drained(old(heads)[p], pushed, first)))
        && (done <==> heads[p].q.xfree == [])
    {
      ghost var v0 := V();
      DrainClaimed(p, pushed, first);
      ghost var v1 := V();
      assert PageEvolves(v0.heads[p], heads, p);
      if heads[p].q.used == 0 {
        NoneUsed(Reserved(heads[p]), heads[p].q);
        ReleasedSame(v0, v1, p);
        ReleaseSlices(p);
        done := true;
      } else {
        UsedAndDrained(Reserved(heads[p]), heads[p].q);
        var full := IsFull(p);
        OnlyAtTrans(v0.heads, v1.heads, heads, p);
        done := heads[p].q.xfree == [];
      }
      EvolvesTrans(v0, v1, V());
    }

    /// The abandoned page just claimed by pushing `pushed` is released if it has no
    /// live block left, else let go with an empty stack.
    method TryCollectMt(p: PageId, pushed: Block)
      requires Valid() && p in orphans && heads[p].q.xfree != [] && heads[p].q.xfree[0] == pushed
      modifies this
      ensures Valid() && Evolves(old(V()), V()) && ClaimEnded(old(V()), V(), p)
      ensures p in heads ==> heads[p] == old(heads)[p].(q := LetGoLists(old(heads)[p], pushed))
    {
      ghost var v0 := V();
      var first := true;
      var done := false;
      while !done
        invariant Valid() && Evolves(v0, V())
        invariant if done then ClaimEnded(v0, V(), p)
                  else p in orphans && OnlyAt(v0.heads, heads, p) && V() == v0.(heads := heads)
        invariant !done && first ==> heads[p] == v0.heads[p]
        invariant !done && !first ==> DrainedOnce(v0.heads[p], heads[p], pushed)
        invariant done && p in heads ==> heads[p] == v0.heads[p].(q := LetGoLists(v0.heads[p], pushed))
        decreases !done, first
      {
        ghost var v1 := V();
        done := CollectClaimed(p, pushed, first);
        ClaimedLater(v0, v1, V(), p, done);
        first := false;
      }
    }

    // ----- collecting -------------------------------------------------------

    method SettleEmpty(p: PageId, at: nat, force: bool)
      requires Valid() && LinkedAt(p, at) && heads[p].q.used == 0
      modifies this
      ensures Valid() && Evolves(old(V()), V())
      ensures EmptySettled(old(V()), V(), p, at, force)
    {
      if force { ReleaseLinked(p, at); } else { RetirePage(p, at); }
    }

    /// Drains one page; an empty one is released when forced, else retired.
    method CollectPage(p: PageId, at: nat, force: bool) returns (kept: bool)
      requires Valid() && LinkedAt(p, at)
      modifies this
      ensures Valid() && Evolves(old(V()), V())
      ensures PageCollected(old(V()), V(), p, at, force, kept)
    {
      ghost var v0 := V();
      CollectFree(p);
      ghost var v1 := V();
      if heads[p].q.used == 0 { SettleEmpty(p, at, force); }
      kept := p in heads;
      EvolvesTrans(v0, v1, V());
      CollectedIs(v0, v1, V(), p, at, force);
    }

    method CollectBin(b: nat, force: bool)
      requires Valid() && b < BIN_COUNT
      modifies this
      ensures Valid() && Evolves(old(V()), V())
      ensures BinSettled(V(), b, force) && BinCollected(old(V()), V(), b, force)
      ensures OtherBinsKept(old(V()), V(), b)
    {
      ghost var v0 := V();
      CollectStart(t, v0, b, force);
      var queue := pages[b];
      var i, at := 0, 0;
      while i < |queue|
        invariant Valid() && CollectingBin(v0, V(), b, queue, i, at, force)
      {
        ghost var v1 := V();
        var p := queue[i];
        CollectNext(t, v1, b, queue, i, at, force);
        var kept := CollectPage(p, at, force);
        CollectLoop(t, v0, v1, V(), b, queue, i, at, force, kept);
        if kept { at := at + 1; }
        i := i + 1;
      }
      CollectedAll(v0, V(), b, queue, i, at, force);
    }

    /// Drains every page; an empty one is retired. Forced, it leaves only pages
    /// with a live block, and so no page at all once the program holds no pointer.
    method Collect(force: bool)
      requires Valid()
      modifies this
      ensures Valid() && Evolves(old(V()), V())
      ensures SettledBelow(V(), BIN_COUNT, force)
      ensures forall b :: 0 <= b < BIN_COUNT ==> BinCollected(old(V()), V(), b, force)
      ensures force && old(NoLeak(V())) && users == map[] ==> NoPages(V())
      ensures force ==> retiredMin > retiredMax
    {
      ghost var v0 := V();
      AllBinsSame(t, v0);
      var b := 0;
      while b < BIN_COUNT
        invariant b <= BIN_COUNT && Valid() && Evolves(v0, V())
        invariant SettledBelow(V(), b, force) && CollectedBelow(v0, V(), b, force)
      {
        ghost var v1 := V();
        CollectBin(b, force);
        EvolvesTrans(v0, v1, V());
        SettledStep(v1, V(), b, force);
        BelowStep(v0, v1, V(), b, force);
        b := b + 1;
      }
      if force {
        retiredMin, retiredMax := BIN_FULL, 0;
        if NoLeak(v0) {
          EvolvesLeak(v0, V());
          NothingLeft(t, V());
        }
      }
    }

    // ----- handing over -----------------------------------------------------

    /// One page at thread exit: released if empty, else left to be reclaimed.
    /// The dying heap's direct cache goes with it.
    method AbandonPage(p: PageId)
      requires Valid() && LinkedAt(p, 0)
      modifies this
      ensures Valid() && Evolves(old(V()), V())
      ensures pages == Unlinked(old(pages), old(heads)[p].bin, 0)
      ensures Handed(V(), p) && OthersHanded(old(V()), V(), p)
    {
      ghost var v0 := V();
      Unlink(p, 0);
      ghost var v1 := V();
      CollectFree(p);
      EvolvesTrans(v0, v1, V());
      if heads[p].q.used == 0 {
        ghost var v2 := V();
        ReleaseSlices(p);
        EvolvesTrans(v0, v2, V());
      }
    }

    /// Every page leaves the queues, released if empty and abandoned otherwise;
    /// the live blocks, and so the program's pointers, outlive the heap.
    method Drop()
      requires Valid()
      modifies this
      ensures Valid() && Evolves(old(V()), V()) && NoPages(V())
      ensures forall p :: p in old(heads) && p !in old(orphans) ==> Handed(V(), p)
    {
      ghost var v0 := V();
      AllBinsHanded(t, v0);
      var b := 0;
      while b < BIN_COUNT
        invariant b <= BIN_COUNT && Valid() && Evolves(v0, V())
        invariant HandedBelow(v0, V(), b)
      {
        ghost var v1 := V();
        DropBin(b);
        EvolvesTrans(v0, v1, V());
        HandedStep(v0, v1, V(), b);
        b := b + 1;
      }
      AllHanded(t, v0, V());
    }

    method AbandonFirst(b: nat)
      requires Valid() && b < |pages| == BIN_COUNT && pages[b] != []
      modifies this
      ensures Valid() && Evolves(old(V()), V())
      ensures pages == Unlinked(old(pages), b, 0)
      ensures Handed(V(), old(pages)[b][0]) && OthersHanded(old(V()), V(), old(pages)[b][0])
    {
      QueueFacts(t, V(), b);
      AbandonPage(pages[b][0]);
    }

    method DropBin(b: nat)
      requires Valid() && b < BIN_COUNT
      modifies this
      ensures Valid() && Evolves(old(V()), V())
      ensures |pages| == BIN_COUNT && pages == old(pages)[b := []]
      ensures forall p :: p in old(pages)[b] ==> Handed(V(), p)
      ensures forall p :: Handed(old(V()), p) ==> Handed(V(), p)
    {
      ghost var v0 := V();
      QueueFacts(t, v0, b);
      ghost var i := 0;
      while pages[b] != []
        invariant Valid() && Evolves(v0, V()) && DroppedTo(v0, V(), b, i)
        decreases |pages[b]|
      {
        ghost var v1 := V();
        AbandonFirst(b);
        EvolvesTrans(v0, v1, V());
        DropStep(v0, v1, V(), b, i);
        i := i + 1;
      }
      DroppedAll(v0, V(), b, i);
    }
  }
}
