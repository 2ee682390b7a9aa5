/// One address space as the thread heap sees it: page headers with their slice
/// runs and block lists, the bin queues, the direct cache, the page map, and
/// the pointers the program holds. What must hold of it, and the four ways in
/// which an operation changes it.

module HeapState {
  import opened Words
  import opened SizeClasses
  import opened PageProtocol
  import opened PageLists
  import opened Dispatch
  import opened SliceRuns
  import opened Wrappers
  import Q = PageQueue

  /// Size of the page header in front of the first block, rounded up to 16.
  const HEADER: nat := 144
  const SMALL_WSIZE_MAX: nat := 128
  const PAGES_DIRECT: nat := 129
  /// Slices that the page map can hold.
  const MAX_SLICES: nat := 0x8000_0000

  /// A page incarnation; 0 is the null page.
  type PageId = nat

  /// A page header with its lists. A huge page's header is off its slices.
  datatype Head = Head(bin: nat, bs: nat, slice: nat, count: nat, q: Lists, retire: nat, interior: bool)

  /// The block behind a pointer the program holds, and the size it asked for.
  datatype Piece = Piece(page: PageId, block: Block, size: nat)

  datatype View = View(
    heads: map<PageId, Head>,
    pages: seq<seq<PageId>>,         // bin queues, front first
    orphans: set<PageId>,            // pages in no queue: abandoned, or being released
    direct: seq<PageId>,             // pages_free_direct
    free: set<nat>,                  // free slices of the arenas
    mapped: map<nat, PageId>,        // the flat page map
    users: map<nat, Piece>)          // live user pointers

  // ----- geometry -----------------------------------------------------------

  function Start(h: Head): nat { h.slice * SLICE_SIZE + if h.bin == BIN_HUGE then 0 else HEADER }

  function Reserved(h: Head): nat {
    if h.bin == BIN_HUGE then 1
    else if h.bs == 0 || h.count * SLICE_SIZE <= HEADER then 0
    else (h.count * SLICE_SIZE - HEADER) / h.bs
  }

  function Cfg(h: Head): Config
    requires h.bs > 0
  {
    PageConfig(Reserved(h), h.bs)
  }

  function BlockAt(h: Head, b: Block): nat { Start(h) + b * h.bs }

  predicate InRun(h: Head, u: nat) { h.slice <= u < h.slice + h.count }

  ghost predicate HeadOk(t: seq<nat>, h: Head) {
    && 0 < h.bin <= BIN_HUGE && h.bs >= 8 && h.count >= 1 && h.slice + h.count <= MAX_SLICES
    && (h.bin < BIN_HUGE ==> h.bin < |t| && h.bs == t[h.bin] && h.bs + HEADER <= h.count * SLICE_SIZE)
    && (h.bin == BIN_HUGE ==> h.bs <= h.count * SLICE_SIZE)
    && WellFormed(Reserved(h), h.q)
  }

  /// Every block lies within its page's slices, past the header.
  lemma BlockInside(t: seq<nat>, h: Head, b: Block)
    requires HeadOk(t, h) && b < Reserved(h)
    ensures h.slice * SLICE_SIZE + (if h.bin == BIN_HUGE then 0 else HEADER) <= BlockAt(h, b)
    ensures Start(h) <= BlockAt(h, b)
    ensures BlockAt(h, b) + h.bs <= (h.slice + h.count) * SLICE_SIZE
  {
    if h.bin == BIN_HUGE {
      assert b * h.bs == 0;
    } else {
      var area := h.count * SLICE_SIZE - HEADER;
      assert area / h.bs * h.bs <= area;
      Scale(b + 1, area / h.bs, h.bs);
    }
  }

  /// Blocks of one page do not overlap.
  lemma BlocksApart(h: Head, b: Block, b': Block)
    requires b < b'
    ensures BlockAt(h, b) + h.bs <= BlockAt(h, b')
  {
    Scale(b + 1, b', h.bs);
  }

  // ----- the invariant ------------------------------------------------------

  ghost predicate HeadsOk(t: seq<nat>, heads: map<PageId, Head>) {
    0 !in heads && forall p :: p in heads ==> HeadOk(t, heads[p])
  }

  /// A page is in the queue of its own bin and no other, or is abandoned.
  ghost predicate QueuesOk(heads: map<PageId, Head>, pages: seq<seq<PageId>>, orphans: set<PageId>) {
    && |pages| == BIN_COUNT
    && (forall b :: 0 <= b < BIN_COUNT ==> Q.Distinct(pages[b]))
    && (forall b, p :: 0 <= b < BIN_COUNT && p in pages[b] ==>
          p in heads && heads[p].bin == b && p !in orphans)
    && (forall p :: p in heads && p !in orphans ==> heads[p].bin < BIN_COUNT && p in pages[heads[p].bin])
    && (forall p :: p in orphans ==> p in heads)
  }

  /// A cached page is linked in the queue of its word size and its blocks are
  /// large enough for it.
  ghost predicate CacheOk(heads: map<PageId, Head>, orphans: set<PageId>, direct: seq<PageId>) {
    && |direct| == PAGES_DIRECT
    && (forall w :: 0 <= w < PAGES_DIRECT && direct[w] != 0 ==>
          direct[w] in heads && direct[w] !in orphans && CacheFits(heads[direct[w]], w))
  }

  predicate CacheFits(h: Head, w: nat) { h.bin == WBin(w) && h.bs >= 8 * w }

  /// The page map sends exactly the slices of existing pages to their page, and
  /// none of them is free in the arena.
  ghost predicate MapOk(heads: map<PageId, Head>, free: set<nat>, mapped: map<nat, PageId>) {
    && (forall p, u: nat :: p in heads && InRun(heads[p], u) ==> u in mapped && mapped[u] == p)
    && (forall u :: u in mapped ==> u !in free && mapped[u] in heads && InRun(heads[mapped[u]], u))
  }

  /// The pointer is into a live block of its own, with room for its size; if it
  /// is not the block's start, the page is flagged.
  ghost predicate UserOk(h: Head, ptr: nat, x: Piece)
  {
    && x.block in h.q.live
    && BlockAt(h, x.block) <= ptr < BlockAt(h, x.block) + h.bs
    && ptr + x.size <= BlockAt(h, x.block) + h.bs
    && (ptr != BlockAt(h, x.block) ==> h.interior)
  }

  predicate SameBlock(x: Piece, y: Piece) { x.page == y.page && x.block == y.block }

  ghost predicate UsersOk(heads: map<PageId, Head>, users: map<nat, Piece>) {
    && (forall ptr :: ptr in users ==> users[ptr].page in heads && UserOk(heads[users[ptr].page], ptr, users[ptr]))
    && (forall ptr, ptr' :: ptr in users && ptr' in users && SameBlock(users[ptr], users[ptr']) ==> ptr == ptr')
  }

  ghost predicate Inv(t: seq<nat>, v: View) {
    && HeadsOk(t, v.heads)
    && QueuesOk(v.heads, v.pages, v.orphans)
    && CacheOk(v.heads, v.orphans, v.direct)
    && MapOk(v.heads, v.free, v.mapped)
    && UsersOk(v.heads, v.users)
  }

  // ----- what the invariant gives -------------------------------------------

  lemma LiveBelowReserved(reserved: nat, q: Lists, b: Block)
    requires WellFormed(reserved, q) && b in q.live
    ensures b < reserved
  {
    Apart(reserved, q, b);
  }

  /// Every address of a live block leads to its page through the page map.
  lemma LiveAddressMapped(t: seq<nat>, v: View, p: PageId, b: Block, a: nat)
    requires Inv(t, v) && p in v.heads && b in v.heads[p].q.live
    requires BlockAt(v.heads[p], b) <= a < BlockAt(v.heads[p], b) + v.heads[p].bs
    ensures a / SLICE_SIZE in v.mapped && v.mapped[a / SLICE_SIZE] == p
    ensures a / SLICE_SIZE !in v.free
  {
    var h := v.heads[p];
    LiveBelowReserved(Reserved(h), h.q, b);
    BlockInside(t, h, b);
    assert InRun(h, a / SLICE_SIZE);
  }

  /// Live blocks never overlap, whichever pages they are in.
  lemma LiveBlocksDisjoint(t: seq<nat>, v: View, p: PageId, b: Block, p': PageId, b': Block, a: nat)
    requires Inv(t, v) && p in v.heads && p' in v.heads
    requires b in v.heads[p].q.live && b' in v.heads[p'].q.live
    requires BlockAt(v.heads[p], b) <= a < BlockAt(v.heads[p], b) + v.heads[p].bs
    requires BlockAt(v.heads[p'], b') <= a < BlockAt(v.heads[p'], b') + v.heads[p'].bs
    ensures p == p' && b == b'
  {
    LiveAddressMapped(t, v, p, b, a);
    LiveAddressMapped(t, v, p', b', a);
    if b < b' { BlocksApart(v.heads[p], b, b'); }
    if b' < b { BlocksApart(v.heads[p], b', b); }
  }

  /// No two pointers the program holds share a byte.
  lemma UserRangesDisjoint(t: seq<nat>, v: View, ptr: nat, ptr': nat)
    requires Inv(t, v) && ptr in v.users && ptr' in v.users && ptr != ptr'
    ensures ptr + v.users[ptr].size <= ptr' || ptr' + v.users[ptr'].size <= ptr
  {
    var x, y := v.users[ptr], v.users[ptr'];
    var a := if ptr < ptr' then ptr' else ptr;
    if ptr < ptr' < ptr + x.size {
      LiveBlocksDisjoint(t, v, x.page, x.block, y.page, y.block, ptr');
    }
    if ptr' < ptr < ptr' + y.size {
      LiveBlocksDisjoint(t, v, x.page, x.block, y.page, y.block, ptr);
    }
  }

  // ----- change 1: a page's header ------------------------------------------

  predicate SameShape(h: Head, h': Head) {
    h'.bin == h.bin && h'.bs == h.bs && h'.slice == h.slice && h'.count == h.count && (h.interior ==> h'.interior)
  }

  ghost predicate KeepsLive(h: Head, h': Head) {
    forall b: Block :: b in h.q.live ==> b in h'.q.live
  }

  lemma HeadOkShape(t: seq<nat>, h: Head, h': Head)
    requires HeadOk(t, h) && SameShape(h, h') && WellFormed(Reserved(h), h'.q)
    ensures HeadOk(t, h')
  {
  }

  lemma UserOkShape(h: Head, h': Head, ptr: nat, x: Piece)
    requires UserOk(h, ptr, x) && SameShape(h, h') && x.block in h'.q.live
    ensures UserOk(h', ptr, x)
  {
  }

  lemma MapOkShape(heads: map<PageId, Head>, free: set<nat>, mapped: map<nat, PageId>, p: PageId, h': Head)
    requires MapOk(heads, free, mapped) && p in heads && SameShape(heads[p], h')
    ensures MapOk(heads[p := h'], free, mapped)
  {
    forall q, u: nat | q in heads && InRun(heads[p := h'][q], u) ensures u in mapped && mapped[u] == q {
      assert InRun(heads[q], u);
    }
    forall u | u in mapped ensures InRun(heads[p := h'][mapped[u]], u) {
      assert InRun(heads[mapped[u]], u);
    }
  }

  lemma QueuesOkShape(v: View, p: PageId, h': Head)
    requires QueuesOk(v.heads, v.pages, v.orphans) && CacheOk(v.heads, v.orphans, v.direct)
    requires p in v.heads && SameShape(v.heads[p], h')
    ensures QueuesOk(v.heads[p := h'], v.pages, v.orphans) && CacheOk(v.heads[p := h'], v.orphans, v.direct)
  {
  }

  lemma HeadChanged(t: seq<nat>, v: View, p: PageId, h': Head)
    requires Inv(t, v) && p in v.heads
    requires SameShape(v.heads[p], h') && KeepsLive(v.heads[p], h') && WellFormed(Reserved(v.heads[p]), h'.q)
    ensures Inv(t, v.(heads := v.heads[p := h']))
  {
    var heads := v.heads[p := h'];
    HeadOkShape(t, v.heads[p], h');
    MapOkShape(v.heads, v.free, v.mapped, p, h');
    assert UsersOk(heads, v.users) by {
      forall ptr | ptr in v.users ensures UserOk(heads[v.users[ptr].page], ptr, v.users[ptr]) {
        var x := v.users[ptr];
        if x.page == p { UserOkShape(v.heads[p], h', ptr, x); }
      }
    }
    QueuesOkShape(v, p, h');
  }

  // ----- change 2: a pointer handed out, or taken back ----------------------

  lemma PointerAdded(t: seq<nat>, v: View, ptr: nat, x: Piece)
    requires Inv(t, v) && x.page in v.heads && UserOk(v.heads[x.page], ptr, x)
    requires forall q :: q in v.users ==> !SameBlock(v.users[q], x)
    ensures ptr !in v.users && Inv(t, v.(users := v.users[ptr := x]))
  {
    NotHeld(t, v, ptr, x);
    UserAdded(v.heads, v.users, ptr, x);
  }

  lemma NotHeld(t: seq<nat>, v: View, ptr: nat, x: Piece)
    requires Inv(t, v) && x.page in v.heads && UserOk(v.heads[x.page], ptr, x)
    requires forall q :: q in v.users ==> !SameBlock(v.users[q], x)
    ensures ptr !in v.users
  {
    if ptr in v.users {
      LiveBlocksDisjoint(t, v, x.page, x.block, v.users[ptr].page, v.users[ptr].block, ptr);
    }
  }

  lemma UserAdded(heads: map<PageId, Head>, users: map<nat, Piece>, ptr: nat, x: Piece)
    requires UsersOk(heads, users) && x.page in heads && UserOk(heads[x.page], ptr, x) && ptr !in users
    requires forall q :: q in users ==> !SameBlock(users[q], x)
    ensures UsersOk(heads, users[ptr := x])
  {
  }

  /// The block behind a returned pointer leaves the live ones.
  lemma PointerReturned(t: seq<nat>, v: View, ptr: nat, h': Head)
    requires Inv(t, v) && ptr in v.users
    requires var h := v.heads[v.users[ptr].page];
             SameShape(h, h') && h'.q.live == h.q.live - multiset{v.users[ptr].block} && WellFormed(Reserved(h), h'.q)
    ensures Inv(t, v.(heads := v.heads[v.users[ptr].page := h'], users := v.users - {ptr}))
  {
    var p := v.users[ptr].page;
    var heads := v.heads[p := h'];
    var users := v.users - {ptr};
    HeadOkShape(t, v.heads[p], h');
    MapOkShape(v.heads, v.free, v.mapped, p, h');
    QueuesOkShape(v, p, h');
    assert UsersOk(heads, users) by {
      forall q | q in users ensures UserOk(heads[users[q].page], q, users[q]) {
        var x := v.users[q];
        assert !SameBlock(x, v.users[ptr]);
        if x.page == p { UserOkShape(v.heads[p], h', q, x); }
      }
    }
  }

  // ----- change 3: a new page -----------------------------------------------

  function Registered(mapped: map<nat, PageId>, slice: nat, count: nat, p: PageId): (m: map<nat, PageId>)
    ensures forall u :: u in m <==> u in mapped || slice <= u < slice + count
    ensures forall u :: u in m ==> m[u] == if slice <= u < slice + count then p else mapped[u]
  {
    mapped + map u | u in Slices(slice, count) :: p
  }

  /// A freshly carved page, pushed in front of its queue.
  function Carved(v: View, p: PageId, h: Head): View
    requires h.bin < |v.pages|
  {
    v.(heads := v.heads[p := h], pages := v.pages[h.bin := [p] + v.pages[h.bin]],
       free := v.free - Slices(h.slice, h.count), mapped := Registered(v.mapped, h.slice, h.count, p))
  }

  /// A run the arena hands out was never mapped, and the page it becomes fits in.
  lemma PageCarved(t: seq<nat>, v: View, p: PageId, h: Head)
    requires Inv(t, v) && p != 0 && p !in v.heads && HeadOk(t, h)
    requires Slices(h.slice, h.count) <= v.free
    ensures forall u: nat :: InRun(h, u) ==> u !in v.mapped
    ensures h.bin < BIN_COUNT && Inv(t, Carved(v, p, h))
  {
    forall u: nat | InRun(h, u) ensures u !in v.mapped { assert u in Slices(h.slice, h.count); }
    var v' := Carved(v, p, h);
    assert HeadsOk(t, v'.heads);
    CarvedQueues(v, p, h);
    assert CacheOk(v'.heads, v'.orphans, v'.direct);
    CarvedMap(v, p, h);
    assert UsersOk(v'.heads, v'.users);
  }

  lemma CarvedQueues(v: View, p: PageId, h: Head)
    requires QueuesOk(v.heads, v.pages, v.orphans) && p !in v.heads && h.bin < BIN_COUNT
    ensures QueuesOk(Carved(v, p, h).heads, Carved(v, p, h).pages, v.orphans)
  {
    var v' := Carved(v, p, h);
    forall b, x | 0 <= b < BIN_COUNT && x in v'.pages[b]
      ensures x in v'.heads && v'.heads[x].bin == b && x !in v.orphans
    {
      assert (x == p && b == h.bin) || x in v.pages[b];
    }
    assert p in v'.pages[h.bin];
  }

  lemma CarvedMap(v: View, p: PageId, h: Head)
    requires MapOk(v.heads, v.free, v.mapped) && p !in v.heads && h.bin < |v.pages|
    requires forall u: nat :: InRun(h, u) ==> u !in v.mapped
    ensures MapOk(Carved(v, p, h).heads, Carved(v, p, h).free, Carved(v, p, h).mapped)
  {
    var v' := Carved(v, p, h);
    forall q, u: nat | q in v'.heads && InRun(v'.heads[q], u) ensures u in v'.mapped && v'.mapped[u] == q {
      if q != p { assert u in v.mapped; }
    }
    forall u | u in v'.mapped
      ensures u !in v'.free && v'.mapped[u] in v'.heads && InRun(v'.heads[v'.mapped[u]], u)
    {
      if !InRun(h, u) { assert u in v.mapped; }
    }
  }

  // ----- change 4: a page moved between a queue and the orphans -------------

  function Unlinked(pages: seq<seq<PageId>>, b: nat, at: nat): seq<seq<PageId>>
    requires b < |pages| && at < |pages[b]|
  {
    pages[b := Q.Without(pages[b], at)]
  }

  function WithoutPage(direct: seq<PageId>, p: PageId): (r: seq<PageId>)
    ensures |r| == |direct|
    ensures forall w :: 0 <= w < |direct| ==> r[w] == if direct[w] == p then 0 else direct[w]
  {
    seq(|direct|, w requires 0 <= w < |direct| => if direct[w] == p then 0 else direct[w])
  }

  lemma WithoutMembers<T>(s: seq<T>, at: nat)
    requires Q.Distinct(s) && at < |s|
    ensures Q.Distinct(Q.Without(s, at))
    ensures forall x :: x in Q.Without(s, at) <==> x in s && x != s[at]
  {
    var r := Q.Without(s, at);
    forall x | x in s && x != s[at] ensures x in r {
      var i :| 0 <= i < |s| && s[i] == x;
      assert r[if i < at then i else i - 1] == x;
    }
  }

  /// Out of its queue and the direct cache, on to the abandoned pages.
  function Orphaned(v: View, p: PageId, at: nat): View
    requires p in v.heads && v.heads[p].bin < |v.pages| && at < |v.pages[v.heads[p].bin]|
  {
    v.(pages := Unlinked(v.pages, v.heads[p].bin, at), direct := WithoutPage(v.direct, p), orphans := v.orphans + {p})
  }

  lemma PageOrphaned(t: seq<nat>, v: View, p: PageId, at: nat)
    requires Inv(t, v) && p in v.heads && v.heads[p].bin < BIN_COUNT
    requires at < |v.pages[v.heads[p].bin]| && v.pages[v.heads[p].bin][at] == p
    ensures Inv(t, Orphaned(v, p, at))
  {
    WithoutMembers(v.pages[v.heads[p].bin], at);
    assert p in v.pages[v.heads[p].bin];
  }

  /// Reclaimed: out of the abandoned pages, in front of its queue.
  function Adopted(v: View, p: PageId): View
    requires p in v.heads && v.heads[p].bin < |v.pages|
  {
    v.(orphans := v.orphans - {p}, pages := v.pages[v.heads[p].bin := [p] + v.pages[v.heads[p].bin]])
  }

  lemma PageAdopted(t: seq<nat>, v: View, p: PageId)
    requires Inv(t, v) && p in v.orphans
    ensures p in v.heads && v.heads[p].bin < BIN_COUNT && Inv(t, Adopted(v, p))
  {
    var v' := Adopted(v, p);
    var b := v.heads[p].bin;
    forall c, x | 0 <= c < BIN_COUNT && x in v'.pages[c]
      ensures x in v.heads && v.heads[x].bin == c && x !in v'.orphans
    {
      assert (x == p && c == b) || x in v.pages[c];
    }
    forall x | x in v.heads && x !in v'.orphans ensures x in v'.pages[v.heads[x].bin] {
      assert x == p || x in v.pages[v.heads[x].bin];
    }
  }

  // ----- change 5: a page released ------------------------------------------

  /// An unlinked page gives its slices back to the arena.
  function Released(v: View, p: PageId): View
    requires p in v.heads
  {
    var h := v.heads[p];
    v.(heads := v.heads - {p}, orphans := v.orphans - {p},
       free := v.free + Slices(h.slice, h.count), mapped := v.mapped - Slices(h.slice, h.count))
  }

  lemma PageReleased(t: seq<nat>, v: View, p: PageId)
    requires Inv(t, v) && p in v.orphans && v.heads[p].q.live == multiset{}
    ensures Inv(t, Released(v, p))
  {
    var v' := Released(v, p);
    assert HeadsOk(t, v'.heads);
    assert QueuesOk(v'.heads, v'.pages, v'.orphans);
    assert CacheOk(v'.heads, v'.orphans, v'.direct);
    ReleasedMap(v, p);
    forall ptr | ptr in v.users ensures v.users[ptr].page != p {
      assert UserOk(v.heads[v.users[ptr].page], ptr, v.users[ptr]);
    }
  }

  lemma ReleasedMap(v: View, p: PageId)
    requires MapOk(v.heads, v.free, v.mapped) && p in v.heads
    ensures MapOk(Released(v, p).heads, Released(v, p).free, Released(v, p).mapped)
  {
    var h := v.heads[p];
    var v' := Released(v, p);
    forall u | u in v'.mapped ensures u !in v'.free && v'.mapped[u] in v'.heads {
      assert InRun(v.heads[v.mapped[u]], u) && !InRun(h, u);
    }
    forall x, u: nat | x in v'.heads && InRun(v'.heads[x], u) ensures u in v'.mapped {
      assert InRun(v.heads[x], u) && v.mapped[u] == x;
      assert !InRun(h, u);
    }
  }

  // ----- what no operation takes away ---------------------------------------

  /// No page appears, a page that goes had no live block, and the others keep
  /// their blocks; the program's pointers stay.
  ghost predicate Evolves(v: View, v': View) {
    && v'.users == v.users
    && (forall p :: p in v'.heads ==> p in v.heads)
    && (forall p :: p in v.heads ==> PageEvolves(v.heads[p], v'.heads, p))
  }

  ghost predicate PageEvolves(h: Head, heads': map<PageId, Head>, p: PageId) {
    if p in heads' then SameShape(h, heads'[p]) && heads'[p].q.live == h.q.live
    else h.q.live == multiset{}
  }

  lemma EvolvesTrans(v: View, v1: View, v2: View)
    requires Evolves(v, v1) && Evolves(v1, v2)
    ensures Evolves(v, v2)
  {
    forall p | p in v.heads ensures PageEvolves(v.heads[p], v2.heads, p) {
      assert PageEvolves(v.heads[p], v1.heads, p);
      if p in v1.heads { assert PageEvolves(v1.heads[p], v2.heads, p); }
    }
  }

  lemma HeadEvolves(v: View, p: PageId, h': Head)
    requires p in v.heads && SameShape(v.heads[p], h') && h'.q.live == v.heads[p].q.live
    ensures Evolves(v, v.(heads := v.heads[p := h']))
  {
  }

  lemma NoneUsed(reserved: nat, q: Lists)
    requires WellFormed(reserved, q) && q.used == 0
    ensures q.live == multiset{} && q.xfree == []
  {
  }

  lemma EmptyWellFormed(reserved: nat)
    ensures WellFormed(reserved, Lists([], [], [], 0, 0, multiset{}))
    ensures reserved >= 1 ==> WellFormed(reserved, Lists([], [], [], 1, 1, multiset{0}))
  {
  }

  // ----- a page's allocation ------------------------------------------------

  lemma RefilledKeeps(reserved: nat, c: Config, q: Lists)
    requires WellFormed(reserved, q) && c.reserved == reserved
    ensures WellFormed(reserved, Refilled(c, q)) && Refilled(c, q).live == q.live
  {
    if q.free == [] {
      CollectedWellFormed(reserved, q);
      if Collected(q).free == [] { GrownWellFormed(reserved, c, Collected(q)); }
    }
  }

  /// The page is refilled if it must be, and its first block, if any, is popped.
  ghost predicate PoppedFrom(h: Head, q: Lists, r: Option<Block>)
    requires h.bs > 0 && h.q.capacity <= Reserved(h)
  {
    var q1 := Refilled(Cfg(h), h.q);
    if q1.free == [] then r == None && q == q1 else r == Some(q1.free[0]) && q == Pop(q1)
  }

  /// What `Page::alloc` does to a page: a fresh block becomes live, or all are.
  lemma AllocatedBlock(h: Head)
    requires h.bs > 0 && WellFormed(Reserved(h), h.q)
    ensures var q1 := Refilled(Cfg(h), h.q);
      && WellFormed(Reserved(h), q1) && q1.live == h.q.live
      && (q1.free == [] ==> forall b: Block :: b < Reserved(h) ==> b in h.q.live)
      && (q1.free != [] ==>
            && WellFormed(Reserved(h), Pop(q1)) && q1.free[0] < Reserved(h)
            && q1.free[0] !in h.q.live && Pop(q1).live == h.q.live + multiset{q1.free[0]})
  {
    var q1 := Refilled(Cfg(h), h.q);
    RefilledKeeps(Reserved(h), Cfg(h), h.q);
    FailsIffAllLive(Cfg(h), h.q);
    if q1.free != [] {
      PopWellFormed(Reserved(h), q1);
      Apart(Reserved(h), q1, q1.free[0]);
    }
  }

  ghost predicate AllLive(h: Head) {
    forall b: Block :: b < Reserved(h) ==> b in h.q.live
  }

  /// No page of bin `b` has a block to serve.
  ghost predicate AllBusy(v: View, b: nat) {
    b < |v.pages| && forall i :: 0 <= i < |v.pages[b]| ==> v.pages[b][i] in v.heads && AllLive(v.heads[v.pages[b][i]])
  }

  /// The page at place `at` of bin `b` is the first with a block to serve.
  ghost predicate FirstWithRoom(v: View, b: nat, at: nat) {
    && b < |v.pages| && at < |v.pages[b]| && v.pages[b][at] in v.heads && !AllLive(v.heads[v.pages[b][at]])
    && forall j :: 0 <= j < at ==> v.pages[b][j] in v.heads && AllLive(v.heads[v.pages[b][j]])
  }

  ghost predicate HasRoom(v: View, b: nat, p: PageId) {
    exists at: nat :: FirstWithRoom(v, b, at) && v.pages[b][at] == p
  }

  /// Page `p` is the one to serve from: the first of the queue with a block to
  /// serve, else the abandoned page claimed if it has one, else a new page.
  ghost predicate Chosen(v: View, b: nat, claim: Option<PageId>, p: PageId, next: PageId) {
    if !AllBusy(v, b) then HasRoom(v, b, p)
    else if claim.Some? && claim.value in v.heads && !AllLive(v.heads[claim.value]) then p == claim.value
    else p == next
  }

  /// Neither the queue nor the page claimed has a block to serve.
  ghost predicate NothingToServe(v: View, b: nat, claim: Option<PageId>) {
    AllBusy(v, b) && (claim.Some? ==> claim.value in v.heads && AllLive(v.heads[claim.value]))
  }

  /// The page found for bin `b`: as `Chosen`, but a claimed page even if full.
  /// One that is not new leaves the free slices alone.
  ghost predicate PageFound(v: View, v': View, b: nat, claim: Option<PageId>, p: PageId, next: PageId) {
    && p in v'.heads
    && if !AllBusy(v, b) then HasRoom(v, b, p) && !AllLive(v'.heads[p]) && v'.free == v.free && v'.pages == v.pages
       else if claim.Some? then
         && p == claim.value && p in v.heads && v'.free == v.free
         && (AllLive(v'.heads[p]) <==> AllLive(v.heads[p]))
       else p == next && !AllLive(v'.heads[p])
  }

  lemma QueueScanned(v: View, b: nat, at: nat)
    requires b < |v.pages| && at <= |v.pages[b]|
    requires forall i :: 0 <= i < |v.pages[b]| ==> v.pages[b][i] in v.heads
    requires forall j :: 0 <= j < at ==> AllLive(v.heads[v.pages[b][j]])
    requires at < |v.pages[b]| ==> !AllLive(v.heads[v.pages[b][at]])
    ensures AllBusy(v, b) <==> at == |v.pages[b]|
    ensures at < |v.pages[b]| ==> HasRoom(v, b, v.pages[b][at])
  {
    if at < |v.pages[b]| { assert FirstWithRoom(v, b, at); }
  }

  lemma ClaimFound(v: View, v1: View, v': View, b: nat, p: PageId, next: PageId)
    requires Evolves(v, v1) && Evolves(v1, v') && AllBusy(v, b) && p in v.heads && p in v1.heads && p in v'.heads
    requires v'.free == v.free
    ensures Evolves(v, v') && PageFound(v, v', b, Some(p), p, next)
  {
    EvolvesTrans(v, v1, v');
    EvolvesFull(v, v', p);
  }

  /// Every page has as much to serve as before, and the queues are the same.
  ghost predicate SameRoom(v: View, v': View) {
    && v'.pages == v.pages && v'.orphans == v.orphans && v'.free == v.free
    && forall p :: p in v.heads ==>
         p in v'.heads && SameShape(v.heads[p], v'.heads[p]) && (AllLive(v'.heads[p]) <==> AllLive(v.heads[p]))
  }

  lemma OneRoomSame(v: View, v': View, p: PageId)
    requires OnlyAt(v.heads, v'.heads, p) && v'.pages == v.pages && v'.orphans == v.orphans && v'.free == v.free
    requires SameShape(v.heads[p], v'.heads[p]) && v'.heads[p].q.live == v.heads[p].q.live
    ensures SameRoom(v, v')
  {
    AllLiveShape(v.heads[p], v'.heads[p]);
  }

  lemma FirstKept(v: View, v': View, b: nat, at: nat)
    requires SameRoom(v, v') && b < |v.pages| && forall i :: 0 <= i < |v.pages[b]| ==> v.pages[b][i] in v.heads
    ensures FirstWithRoom(v', b, at) <==> FirstWithRoom(v, b, at)
  {
  }

  lemma BusyKept(v: View, v': View, b: nat)
    requires SameRoom(v, v') && b < |v.pages| && forall i :: 0 <= i < |v.pages[b]| ==> v.pages[b][i] in v.heads
    ensures AllBusy(v', b) <==> AllBusy(v, b)
  {
  }

  lemma ChosenKept(t: seq<nat>, v: View, v': View, b: nat, claim: Option<PageId>, p: PageId, next: PageId)
    requires Inv(t, v) && b < BIN_COUNT && SameRoom(v, v') && (claim.Some? ==> claim.value in v.heads)
    ensures Chosen(v', b, claim, p, next) ==> Chosen(v, b, claim, p, next)
    ensures NothingToServe(v', b, claim) ==> NothingToServe(v, b, claim)
  {
    QueueFacts(t, v, b);
    BusyKept(v, v', b);
    if HasRoom(v', b, p) {
      var at: nat :| FirstWithRoom(v', b, at) && v'.pages[b][at] == p;
      FirstKept(v, v', b, at);
    }
  }

  lemma QueueFacts(t: seq<nat>, v: View, b: nat)
    requires Inv(t, v) && b < BIN_COUNT
    ensures b < |v.pages| && Scanned(v.heads, v.heads, v.pages[b], 0)
    ensures |v.pages| == BIN_COUNT && Q.Distinct(v.pages[b])
    ensures forall i :: 0 <= i < |v.pages[b]| ==>
      v.pages[b][i] in v.heads && v.pages[b][i] !in v.orphans && v.heads[v.pages[b][i]].bin == b
  {
    forall i | 0 <= i < |v.pages[b]|
      ensures v.pages[b][i] in v.heads && v.pages[b][i] !in v.orphans && v.heads[v.pages[b][i]].bin == b
    {
      assert v.pages[b][i] in v.pages[b];
    }
  }

  ghost predicate OnlyAt(heads: map<PageId, Head>, heads': map<PageId, Head>, p: PageId) {
    && p in heads
    && (forall x :: x in heads' <==> x in heads)
    && (forall x :: x in heads && x != p ==> heads'[x] == heads[x])
  }

  /// Of `queue`, the first `i` pages were full, and the others are untouched.
  ghost predicate Scanned(heads: map<PageId, Head>, heads': map<PageId, Head>, queue: seq<PageId>, i: nat) {
    && i <= |queue| && Q.Distinct(queue)
    && (forall j :: 0 <= j < |queue| ==> queue[j] in heads && queue[j] in heads')
    && (forall j :: 0 <= j < i ==> AllLive(heads[queue[j]]))
    && (forall j :: i <= j < |queue| ==> heads'[queue[j]] == heads[queue[j]])
  }

  lemma ScanStep(h0: map<PageId, Head>, h1: map<PageId, Head>, h2: map<PageId, Head>, queue: seq<PageId>, i: nat)
    requires Scanned(h0, h1, queue, i) && i < |queue| && OnlyAt(h1, h2, queue[i]) && AllLive(h1[queue[i]])
    ensures Scanned(h0, h2, queue, i + 1)
  {
  }

  lemma OnlyAtUpdate(m: map<PageId, Head>, p: PageId, h: Head)
    requires p in m
    ensures OnlyAt(m, m[p := h], p)
  {
  }

  lemma OnlyAtTrans(m: map<PageId, Head>, m1: map<PageId, Head>, m2: map<PageId, Head>, p: PageId)
    requires OnlyAt(m, m1, p) && OnlyAt(m1, m2, p)
    ensures OnlyAt(m, m2, p)
  {
  }

  lemma AllLiveShape(h: Head, h': Head)
    requires SameShape(h, h') && h'.q.live == h.q.live
    ensures AllLive(h') <==> AllLive(h)
  {
  }

  lemma EvolvesFull(v: View, v': View, p: PageId)
    requires Evolves(v, v') && p in v.heads && p in v'.heads
    ensures AllLive(v'.heads[p]) <==> AllLive(v.heads[p])
  {
    assert PageEvolves(v.heads[p], v'.heads, p);
    AllLiveShape(v.heads[p], v'.heads[p]);
  }

  /// The answer of `is_full`: nothing to serve, even after a collect.
  lemma FullMeansAllLive(h: Head)
    requires h.bs > 0 && WellFormed(Reserved(h), h.q)
    ensures h.q.free == [] && Collected(h.q).free == [] && h.q.capacity >= Reserved(h) <==> AllLive(h)
  {
    FailsIffAllLive(Cfg(h), h.q);
    if h.q.free == [] && Collected(h.q).free == [] && h.q.capacity < Reserved(h) {
      assert Refilled(Cfg(h), h.q).free != [];
    }
  }

  // ----- live blocks over the whole heap ------------------------------------

  ghost predicate Live(v: View, p: PageId, b: Block) { p in v.heads && b in v.heads[p].q.live }

  /// Exactly one block became live, and no pointer yet.
  ghost predicate Serves(v: View, v': View, p: PageId, b: Block) {
    && v'.users == v.users
    && !Live(v, p, b)
    && (forall x: PageId, y: Block :: Live(v', x, y) <==> Live(v, x, y) || (x == p && y == b))
  }

  ghost predicate SameLive(v: View, v': View) {
    v'.users == v.users && forall x: PageId, y: Block :: Live(v', x, y) <==> Live(v, x, y)
  }

  lemma EvolvesLive(v: View, v': View)
    requires Evolves(v, v')
    ensures SameLive(v, v')
  {
    forall x: PageId, y: Block ensures Live(v', x, y) <==> Live(v, x, y) {
      if x in v.heads { assert PageEvolves(v.heads[x], v'.heads, x); }
    }
  }

  lemma CarvedLive(v: View, p: PageId, h: Head)
    requires h.bin < |v.pages| && p !in v.heads
    ensures h.q.live == multiset{} ==> SameLive(v, Carved(v, p, h))
    ensures h.q.live == multiset{0} ==> Serves(v, Carved(v, p, h), p, 0)
  {
  }

  /// Every live block is behind a pointer the program holds.
  ghost predicate NoLeak(v: View) {
    forall p: PageId, b: Block :: Live(v, p, b) ==> HasUser(v, p, b)
  }

  ghost predicate HasUser(v: View, p: PageId, b: Block) {
    exists ptr :: ptr in v.users && v.users[ptr].page == p && v.users[ptr].block == b
  }

  lemma ServedUser(t: seq<nat>, v0: View, v: View, ptr: nat, x: Piece)
    requires Inv(t, v0) && Inv(t, v) && Serves(v0, v, x.page, x.block)
    requires Live(v, x.page, x.block) && UserOk(v.heads[x.page], ptr, x)
    ensures ptr !in v.users && Inv(t, v.(users := v.users[ptr := x]))
    ensures NoLeak(v0) ==> NoLeak(v.(users := v.users[ptr := x]))
  {
    forall q | q in v.users ensures !SameBlock(v.users[q], x) {
      assert Live(v0, v0.users[q].page, v0.users[q].block);
    }
    PointerAdded(t, v, ptr, x);
    if NoLeak(v0) { ServedLeak(v0, v, ptr, x); }
  }

  lemma ServedLeak(v0: View, v: View, ptr: nat, x: Piece)
    requires Serves(v0, v, x.page, x.block) && NoLeak(v0) && ptr !in v.users
    ensures NoLeak(v.(users := v.users[ptr := x]))
  {
    var v' := v.(users := v.users[ptr := x]);
    forall p: PageId, b: Block | Live(v', p, b) ensures HasUser(v', p, b) {
      assert Live(v, p, b);
      if p == x.page && b == x.block {
        assert ptr in v'.users;
      } else {
        assert HasUser(v0, p, b);
        var q :| q in v0.users && v0.users[q].page == p && v0.users[q].block == b;
        assert q in v'.users;
      }
    }
  }

  lemma ReturnedLeak(t: seq<nat>, v: View, ptr: nat, h': Head)
    requires Inv(t, v) && ptr in v.users && NoLeak(v)
    requires h'.q.live == v.heads[v.users[ptr].page].q.live - multiset{v.users[ptr].block}
    ensures NoLeak(v.(heads := v.heads[v.users[ptr].page := h'], users := v.users - {ptr}))
  {
    var x := v.users[ptr];
    var v' := v.(heads := v.heads[x.page := h'], users := v.users - {ptr});
    Apart(Reserved(v.heads[x.page]), v.heads[x.page].q, x.block);
    forall p: PageId, b: Block | Live(v', p, b) ensures HasUser(v', p, b) {
      assert Live(v, p, b) && !(p == x.page && b == x.block);
      var q :| q in v.users && v.users[q].page == p && v.users[q].block == b;
      assert q in v'.users;
    }
  }

  lemma EvolvesLeak(v: View, v': View)
    requires Evolves(v, v') && NoLeak(v)
    ensures NoLeak(v')
  {
    EvolvesLive(v, v');
    forall p: PageId, b: Block | Live(v', p, b) ensures HasUser(v', p, b) {
      assert Live(v, p, b) && HasUser(v, p, b);
    }
  }

  /// A page of the class of `w` may be cached for `w`.
  lemma CacheSet(t: seq<nat>, v: View, w: nat, p: PageId)
    requires Inv(t, v) && 0 < w <= SMALL_WSIZE_MAX && p in v.heads && p !in v.orphans
    requires v.heads[p].bin == WBin(w) && v.heads[p].bs >= 8 * w
    ensures Inv(t, v.(direct := v.direct[w := p]))
  {
  }

  // ----- fresh pages --------------------------------------------------------

  const SMALL_MAX_OBJ_SIZE: nat := 10240
  const MEDIUM_MAX_OBJ_SIZE: nat := 86698
  const OS_PAGE: nat := 4096

  function PageSlicesFor(bs: nat): nat {
    if bs <= SMALL_MAX_OBJ_SIZE then 1 else if bs <= MEDIUM_MAX_OBJ_SIZE then 8 else 64
  }

  /// A page spans 1, 8 or 64 slices, the fewest in which six blocks of its class
  /// fit beside an OS page.
  lemma SpanHoldsSix(bs: nat)
    requires 8 <= bs <= 8 * MAX_WSIZE
    ensures var n := PageSlicesFor(bs);
      && (n == 1 || n == 8 || n == 64)
      && 6 * bs + OS_PAGE <= n * SLICE_SIZE
      && (n > 1 ==> 6 * bs + OS_PAGE > n / 8 * SLICE_SIZE)
  {
  }

  lemma SixBlocks(area: nat, bs: nat)
    requires 0 < bs && 6 * bs <= area
    ensures area / bs >= 6
  {
    var q := area / bs;
    assert area == q * bs + area % bs;
    if q <= 5 { Scale(q, 5, bs); }
  }

  /// So a page never holds fewer than six.
  lemma ReservesSix(h: Head)
    requires 8 <= h.bs <= 8 * MAX_WSIZE && h.bin != BIN_HUGE && h.count == PageSlicesFor(h.bs)
    ensures Reserved(h) >= 6
  {
    SpanHoldsSix(h.bs);
    SixBlocks(h.count * SLICE_SIZE - HEADER, h.bs);
  }

  /// The lists of a page of a size class, or of a huge page with its one block
  /// served.
  predicate Fresh(h: Head) {
    if h.bin == BIN_HUGE then h.q == Lists([], [], [], 1, 1, multiset{0})
    else h.q == Lists([], [], [], 0, 0, multiset{})
  }

  function FreshHead(bin: nat, bs: nat, slice: nat): Head {
    Head(bin, bs, slice, PageSlicesFor(bs), Lists([], [], [], 0, 0, multiset{}), 0, false)
  }

  function HugeHead(size: Word, slice: nat): Head {
    Head(BIN_HUGE, HugeBlock(size), slice, HugeSlices(size), Lists([], [], [], 1, 1, multiset{0}), 0, false)
  }

  /// The block size of the class of `w` words.
  lemma ClassFacts(t: seq<nat>, w: nat)
    requires IsBinSizes(t) && 0 < w <= MAX_WSIZE
    ensures 0 < WBin(w) < BIN_HUGE && t[WBin(w)] == 8 * ClassTop(w)
    ensures 8 * w <= t[WBin(w)] <= 8 * MAX_WSIZE
  {
    TableHoldsTops(t, w);
    TopCovers(w);
    WBinMonotone(w, w);
    if w > 8 { FormulaBounds(w); }
  }

  lemma FreshHeadOk(t: seq<nat>, w: nat, slice: nat)
    requires IsBinSizes(t) && 0 < w <= MAX_WSIZE
    requires 0 < WBin(w) < BIN_HUGE && slice + PageSlicesFor(t[WBin(w)]) <= MAX_SLICES
    ensures var h := FreshHead(WBin(w), t[WBin(w)], slice);
      HeadOk(t, h) && Fresh(h) && !AllLive(h)
  {
    ClassFacts(t, w);
    var h := FreshHead(WBin(w), t[WBin(w)], slice);
    EmptyWellFormed(Reserved(h));
    RoomForOne(h.count * SLICE_SIZE - HEADER, h.bs);
    assert 0 !in h.q.live && 0 < Reserved(h);
  }

  lemma RoomForOne(area: nat, bs: nat)
    requires 0 < bs <= area
    ensures area / bs >= 1
  {
    assert area == area / bs * bs + area % bs;
  }

  lemma HugeHeadOk(t: seq<nat>, size: Word, slice: nat)
    requires 8 * MAX_WSIZE < size && size + SLICE_SIZE <= LIMIT && slice + HugeSlices(size) <= MAX_SLICES
    ensures HeadOk(t, HugeHead(size, slice)) && Fresh(HugeHead(size, slice))
  {
    HugeFits(size);
    EmptyWellFormed(1);
  }

  /// Page `p` is linked and its blocks are those of the class of `w` words.
  predicate Serving(v: View, p: PageId, w: nat) {
    p in v.heads && p !in v.orphans && v.heads[p].bin == WBin(w) && v.heads[p].bs >= 8 * w
  }

  // ----- freeing ------------------------------------------------------------

  const RETIRE_CYCLES: nat := 16

  /// Cycles that an emptied sole page is kept for.
  function Cycles(h: Head): nat {
    if h.bs <= SMALL_MAX_OBJ_SIZE then RETIRE_CYCLES else RETIRE_CYCLES / 4
  }

  /// The only page of a size class.
  predicate Sole(v: View, p: PageId)
    requires p in v.heads && v.heads[p].bin < |v.pages|
  {
    v.heads[p].bin != BIN_HUGE && |v.pages[v.heads[p].bin]| <= 1
  }

  predicate PlaceOf(v: View, p: PageId, at: nat) {
    p in v.heads && v.heads[p].bin < |v.pages|
    && at < |v.pages[v.heads[p].bin]| && v.pages[v.heads[p].bin][at] == p
  }

  ghost predicate ReleasedFrom(v: View, v': View, p: PageId) {
    exists at :: PlaceOf(v, p, at) && v' == Released(Orphaned(v, p, at), p)
  }

  /// An emptied page stays if it was retired already, is kept for 16 or 4 sweeps
  /// if it is the sole one of a size class, and is released otherwise.
  ghost predicate RetiredNow(v: View, v': View, p: PageId) {
    && p in v.heads && v.heads[p].bin < |v.pages|
    && var h := v.heads[p];
    if h.retire != 0 then v' == v
    else if Sole(v, p) then
      v' == v.(heads := v.heads[p := h.(retire := if h.bs <= SMALL_MAX_OBJ_SIZE then 16 else 4)])
    else ReleasedFrom(v, v', p)
  }

  /// Freeing `ptr` puts its block in front of its linked page's deferred list,
  /// and retires a page emptied by it.
  ghost predicate FreedLinked(v: View, v': View, ptr: nat)
    requires ptr in v.users
  {
    var x := v.users[ptr];
    && x.page in v.heads
    && var h := v.heads[x.page].(q := Push(v.heads[x.page].q, x.block));
    var v1 := v.(heads := v.heads[x.page := h], users := v.users - {ptr});
    if h.q.used != 0 then v' == v1 else RetiredNow(v1, v', x.page)
  }

  /// Freeing `ptr` into an abandoned page releases it if no other block of it is
  /// live, and drains it otherwise.
  ghost predicate FreedAbandoned(v: View, v': View, ptr: nat)
    requires ptr in v.users
  {
    var x := v.users[ptr];
    && x.page in v.heads
    && var live := v.heads[x.page].q.live - multiset{x.block};
    if live == multiset{} then v' == Released(v.(users := v.users - {ptr}), x.page)
    else
      && v' == v.(heads := v'.heads, users := v.users - {ptr}) && OnlyAt(v.heads, v'.heads, x.page)
      && SameShape(v.heads[x.page], v'.heads[x.page])
      && v'.heads[x.page].q.live == live && v'.heads[x.page].q.xfree == []
  }

  /// The lists after one drain of a claimed page.
  function Drained(h: Head, pushed: Block, first: bool): Lists
    requires first ==> pushed in h.q.xfree
  {
    if first && h.bs <= SMALL_SIZE_MAX then PartlyCollected(h.q, pushed) else Collected(h.q)
  }

  /// `is_full` collects if there is nothing to serve.
  function Tested(q: Lists): Lists { if q.free != [] then q else Collected(q) }

  /// The lists of a claimed page when it is let go: the pushed block may be left
  /// on the stack by the first drain, and is then taken by a second.
  function LetGoLists(h: Head, pushed: Block): Lists
    requires pushed in h.q.xfree
  {
    var q := Tested(Drained(h, pushed, true));
    if q.xfree == [] then q else Tested(Collected(q))
  }

  ghost predicate DrainedOnce(h: Head, h': Head, pushed: Block) {
    pushed in h.q.xfree && h' == h.(q := Tested(Drained(h, pushed, true))) && h'.q.xfree != []
  }

  /// A claimed page is released iff it has no live block, and drained otherwise.
  ghost predicate ClaimEnded(v: View, v': View, p: PageId) {
    && p in v.heads
    && if v.heads[p].q.live == multiset{} then v' == Released(v, p)
       else
         && v' == v.(heads := v'.heads) && OnlyAt(v.heads, v'.heads, p) && SameShape(v.heads[p], v'.heads[p])
         && v'.heads[p].q.live == v.heads[p].q.live && v'.heads[p].q.xfree == []
  }

  lemma ClaimedLater(v: View, v1: View, v': View, p: PageId, done: bool)
    requires Evolves(v, v1) && Evolves(v1, v') && OnlyAt(v.heads, v1.heads, p) && v1 == v.(heads := v1.heads)
    requires if done then ClaimEnded(v1, v', p) else OnlyAt(v1.heads, v'.heads, p) && v' == v1.(heads := v'.heads)
    ensures Evolves(v, v')
    ensures if done then ClaimEnded(v, v', p) else OnlyAt(v.heads, v'.heads, p) && v' == v.(heads := v'.heads)
  {
    EvolvesTrans(v, v1, v');
    assert PageEvolves(v.heads[p], v1.heads, p);
    ReleasedSame(v, v1, p);
  }

  lemma PushedThenClaimed(v: View, v1: View, v': View, ptr: nat)
    requires ptr in v.users && v.users[ptr].page in v.heads
    requires var x := v.users[ptr];
      && v1 == v.(heads := v.heads[x.page := v.heads[x.page].(q := Pushed(v.heads[x.page].q, x.block))],
                  users := v.users - {ptr})
      && ClaimEnded(v1, v', x.page)
    ensures FreedAbandoned(v, v', ptr)
  {
    var p := v.users[ptr].page;
    ReleasedSame(v.(users := v.users - {ptr}), v1, p);
  }

  lemma OnlyAtIs(m: map<PageId, Head>, m': map<PageId, Head>, p: PageId)
    requires OnlyAt(m, m', p)
    ensures m' == m[p := m'[p]]
  {
  }

  lemma RetiredIs(v: View, v': View, p: PageId, at: nat)
    requires PlaceOf(v, p, at) && (p in v'.heads <==> v.heads[p].retire != 0 || Sole(v, p))
    requires p !in v'.heads ==> v' == Released(Orphaned(v, p, at), p)
    requires p in v'.heads ==> v' == v.(heads := v'.heads) && OnlyAt(v.heads, v'.heads, p)
    requires p in v'.heads && v.heads[p].retire != 0 ==> v'.heads == v.heads
    requires p in v'.heads && v.heads[p].retire == 0 ==> v'.heads[p] == v.heads[p].(retire := Cycles(v'.heads[p]))
    ensures RetiredNow(v, v', p)
  {
    if p in v'.heads { OnlyAtIs(v.heads, v'.heads, p); }
  }

  /// What a release takes away does not depend on the page's lists.
  lemma ReleasedSame(v: View, v': View, p: PageId)
    requires v' == v.(heads := v'.heads) && OnlyAt(v.heads, v'.heads, p) && SameShape(v.heads[p], v'.heads[p])
    ensures Released(v', p) == Released(v, p)
  {
    assert v'.heads - {p} == v.heads - {p};
  }

  // ----- one sweep over the retired pages -----------------------------------

  /// Bin `b` has the same queue of the same pages.
  ghost predicate BinSame(v: View, v': View, b: nat) {
    && b < |v.pages| && b < |v'.pages| && v'.pages[b] == v.pages[b]
    && forall p :: p in v.pages[b] ==> SamePage(v, v', p)
  }

  ghost predicate SamePage(v: View, v': View, p: PageId) {
    p in v.heads && p in v'.heads && v'.heads[p] == v.heads[p]
  }

  /// What a sweep does to bin `b`: of the page in front, an armed countdown is
  /// cancelled if the page is in use again, else it goes down by one, and the
  /// page is released when it runs out or when forced.
  ghost predicate Swept(v: View, v': View, b: nat, force: bool) {
    && b < |v.pages| && b < |v'.pages|
    && if v.pages[b] == [] then v'.pages[b] == []
       else
         var p := v.pages[b][0];
         && p in v.heads
         && (forall q :: q in v.pages[b] && q != p ==> SamePage(v, v', q))
         && var h := v.heads[p];
         if h.retire != 0 && h.q.used == 0 && (force || h.retire == 1) then
           p !in v'.heads && v'.pages[b] == v.pages[b][1..]
         else
           && v'.pages[b] == v.pages[b] && p in v'.heads
           && v'.heads[p] == h.(retire := if h.retire == 0 || h.q.used != 0 then 0 else h.retire - 1)
  }

  /// The page in front of an idle bin with its countdown at `n` stays for the
  /// next `n - 1` sweeps, and goes with the one after.
  lemma {:induction false} GoesAfter(vs: seq<View>, b: nat, p: PageId, n: nat)
    requires |vs| == n + 1 && n >= 1 && forall i :: 0 <= i < n ==> Swept(vs[i], vs[i + 1], b, false)
    requires b < |vs[0].pages| && vs[0].pages[b] != [] && vs[0].pages[b][0] == p
    requires p in vs[0].heads && vs[0].heads[p].retire == n && vs[0].heads[p].q.used == 0
    ensures forall i :: 0 <= i < n ==> p in vs[i].heads && vs[i].heads[p].retire == n - i
    ensures p !in vs[n].heads
    decreases n
  {
    assert Swept(vs[0], vs[1], b, false);
    if n > 1 {
      var rest := vs[1..];
      GoesAfter(rest, b, p, n - 1);
      forall i | 1 <= i < n ensures p in vs[i].heads && vs[i].heads[p].retire == n - i {
        assert rest[i - 1] == vs[i];
      }
    }
  }

  /// No page that was gone is there again.
  ghost predicate NoneBack(v: View, v1: View, v2: View) {
    forall p :: p in v.heads && p in v2.heads ==> p in v1.heads
  }

  lemma SweptThenSame(v: View, v1: View, v2: View, b: nat, force: bool)
    requires Swept(v, v1, b, force) && BinSame(v1, v2, b) && NoneBack(v, v1, v2)
    ensures Swept(v, v2, b, force)
  {
    if v.pages[b] != [] {
      forall q | q in v.pages[b] && q != v.pages[b][0] ensures SamePage(v, v2, q) {
        assert SamePage(v, v1, q);
        var i :| 0 <= i < |v.pages[b]| && v.pages[b][i] == q;
        assert v.pages[b][1..][i - 1] == q && q in v1.pages[b];
        assert SamePage(v1, v2, q);
      }
      var p := v.pages[b][0];
      assert p in v1.pages[b] ==> SamePage(v1, v2, p);
    }
  }

  lemma SameThenSwept(v: View, v1: View, v2: View, b: nat, force: bool)
    requires BinSame(v, v1, b) && Swept(v1, v2, b, force)
    ensures Swept(v, v2, b, force)
  {
    if v.pages[b] != [] {
      assert SamePage(v, v1, v.pages[b][0]);
      forall q | q in v.pages[b] && q != v.pages[b][0] ensures SamePage(v, v2, q) {
        assert SamePage(v, v1, q) && SamePage(v1, v2, q);
      }
    }
  }

  lemma SameTrans(v: View, v1: View, v2: View, b: nat)
    requires BinSame(v, v1, b) && BinSame(v1, v2, b)
    ensures BinSame(v, v2, b)
  {
    forall p | p in v.pages[b] ensures SamePage(v, v2, p) {
      assert SamePage(v, v1, p) && SamePage(v1, v2, p);
    }
  }

  /// Changing the header of one page leaves the other bins alone.
  lemma OtherBinsSame(t: seq<nat>, v: View, v': View, p: PageId, c: nat)
    requires Inv(t, v) && p in v.heads && c < BIN_COUNT && c != v.heads[p].bin
    requires OnlyAt(v.heads, v'.heads, p) && v'.pages == v.pages
    ensures BinSame(v, v', c)
  {
    forall q | q in v.pages[c] ensures SamePage(v, v', q) {
      assert v.heads[q].bin == c;
    }
  }

  lemma ReleaseOtherBins(t: seq<nat>, v: View, p: PageId, at: nat, c: nat)
    requires Inv(t, v) && p in v.heads && c < BIN_COUNT && c != v.heads[p].bin && v.heads[p].bin < BIN_COUNT
    requires at < |v.pages[v.heads[p].bin]|
    ensures BinSame(v, Released(Orphaned(v, p, at), p), c)
  {
    var v' := Released(Orphaned(v, p, at), p);
    forall q | q in v.pages[c] ensures SamePage(v, v', q) {
      assert v.heads[q].bin == c;
    }
  }

  ghost predicate OtherBinsKept(v: View, v': View, b: nat) {
    forall c :: 0 <= c < BIN_COUNT && c != b ==> BinSame(v, v', c)
  }

  lemma OthersUntouched(t: seq<nat>, v: View, v': View, p: PageId)
    requires Inv(t, v) && p in v.heads && OnlyAt(v.heads, v'.heads, p) && v'.pages == v.pages
    ensures OtherBinsKept(v, v', v.heads[p].bin)
  {
    forall c | 0 <= c < BIN_COUNT && c != v.heads[p].bin ensures BinSame(v, v', c) {
      OtherBinsSame(t, v, v', p, c);
    }
  }

  lemma ReleaseOthers(t: seq<nat>, v: View, p: PageId)
    requires Inv(t, v) && p in v.heads && v.heads[p].bin < BIN_COUNT && 0 < |v.pages[v.heads[p].bin]|
    ensures OtherBinsKept(v, Released(Orphaned(v, p, 0), p), v.heads[p].bin)
  {
    forall c | 0 <= c < BIN_COUNT && c != v.heads[p].bin
      ensures BinSame(v, Released(Orphaned(v, p, 0), p), c)
    {
      ReleaseOtherBins(t, v, p, 0, c);
    }
  }

  lemma HeadSwept(t: seq<nat>, v: View, v': View, b: nat, force: bool)
    requires Inv(t, v) && b < BIN_COUNT && v.pages[b] != []
    requires var h := v.heads[v.pages[b][0]];
      && v.pages[b][0] in v.heads && OnlyAt(v.heads, v'.heads, v.pages[b][0]) && v'.pages == v.pages
      && !(h.retire != 0 && h.q.used == 0 && (force || h.retire == 1))
      && v'.heads[v.pages[b][0]] == h.(retire := if h.retire == 0 || h.q.used != 0 then 0 else h.retire - 1)
    ensures Swept(v, v', b, force)
  {
    forall q | q in v.pages[b] && q != v.pages[b][0] ensures SamePage(v, v', q) {
    }
  }

  lemma FrontReleased(t: seq<nat>, v: View, b: nat, force: bool)
    requires Inv(t, v) && b < BIN_COUNT && v.pages[b] != [] && v.pages[b][0] in v.heads
    requires v.heads[v.pages[b][0]].bin == b
    requires var h := v.heads[v.pages[b][0]]; h.retire != 0 && h.q.used == 0 && (force || h.retire == 1)
    ensures Swept(v, Released(Orphaned(v, v.pages[b][0], 0), v.pages[b][0]), b, force)
  {
    var p := v.pages[b][0];
    var v' := Released(Orphaned(v, p, 0), p);
    forall q | q in v.pages[b] && q != p ensures SamePage(v, v', q) {
    }
    assert Q.Without(v.pages[b], 0) == v.pages[b][1..];
  }

  lemma AllBinsSame(t: seq<nat>, v: View)
    requires Inv(t, v)
    ensures forall c :: 0 <= c < BIN_COUNT ==> BinSame(v, v, c)
  {
  }

  /// The front page of bin `b` is empty and still counting down.
  predicate StillRetired(v: View, v': View, b: nat) {
    && b < |v.pages| && b < |v'.pages| && v'.pages[b] == v.pages[b] && v'.pages[b] != []
    && v'.pages[b][0] in v'.heads
    && v'.heads[v'.pages[b][0]].retire != 0 && v'.heads[v'.pages[b][0]].q.used == 0
  }

  // ----- the other bins, across an allocation -------------------------------

  lemma OtherBinsTrans(v: View, v1: View, v2: View, b: nat)
    requires OtherBinsKept(v, v1, b) && OtherBinsKept(v1, v2, b)
    ensures OtherBinsKept(v, v2, b)
  {
    forall c | 0 <= c < BIN_COUNT && c != b ensures BinSame(v, v2, c) { SameTrans(v, v1, v2, c); }
  }

  /// A page joins the front of bin `b`, and is the only one changed.
  lemma JoinedOthers(t: seq<nat>, v: View, v': View, p: PageId, b: nat)
    requires Inv(t, v) && b < BIN_COUNT && (p in v.heads ==> p in v.orphans)
    requires |v'.pages| == BIN_COUNT && forall c :: 0 <= c < BIN_COUNT && c != b ==> v'.pages[c] == v.pages[c]
    requires forall q :: q in v.heads && q != p ==> SamePage(v, v', q)
    ensures OtherBinsKept(v, v', b)
  {
    forall c | 0 <= c < BIN_COUNT && c != b ensures BinSame(v, v', c) {
      forall q | q in v.pages[c] ensures SamePage(v, v', q) {
      }
    }
  }

  /// Every bin but `b` was swept once if it is between `lo` and `hi`, and is as it
  /// was if not.
  ghost predicate OthersSwept(v: View, v': View, b: nat, lo: nat, hi: nat) {
    forall c :: 0 <= c < BIN_COUNT && c != b ==>
      if lo <= c <= hi then Swept(v, v', c, false) else BinSame(v, v', c)
  }

  lemma SweptLater(v: View, v1: View, v2: View, b: nat, lo: nat, hi: nat)
    requires OtherBinsKept(v, v1, b) && OthersSwept(v1, v2, b, lo, hi)
    ensures OthersSwept(v, v2, b, lo, hi)
  {
    forall c | 0 <= c < BIN_COUNT && c != b
      ensures if lo <= c <= hi then Swept(v, v2, c, false) else BinSame(v, v2, c)
    {
      if lo <= c <= hi { SameThenSwept(v, v1, v2, c, false); } else { SameTrans(v, v1, v2, c); }
    }
  }

  lemma SweptBefore(v: View, v1: View, v2: View, b: nat, lo: nat, hi: nat)
    requires OthersSwept(v, v1, b, lo, hi) && OtherBinsKept(v1, v2, b) && NoneBack(v, v1, v2)
    ensures OthersSwept(v, v2, b, lo, hi)
  {
    forall c | 0 <= c < BIN_COUNT && c != b
      ensures if lo <= c <= hi then Swept(v, v2, c, false) else BinSame(v, v2, c)
    {
      if lo <= c <= hi { SweptThenSame(v, v1, v2, c, false); } else { SameTrans(v, v1, v2, c); }
    }
  }

  /// What an allocation of bin `b` that looks further than the direct cache does
  /// to the others: a sweep, unless a page there is has a block or one is claimed.
  ghost predicate OthersAfter(v: View, v': View, b: nat, claim: Option<PageId>, lo: nat, hi: nat) {
    if AllBusy(v, b) && claim.None? then OthersSwept(v, v', b, lo, hi) else OtherBinsKept(v, v', b)
  }

  /// No bin but `b` changes, and no page comes or goes.
  ghost predicate PageOnly(v: View, v': View, b: nat) {
    OtherBinsKept(v, v', b) && forall p :: p in v'.heads ==> p in v.heads
  }

  lemma StillPageOnly(v: View, v1: View, v2: View, b: nat)
    requires PageOnly(v, v1, b) && v2.heads == v1.heads && v2.pages == v1.pages
    ensures PageOnly(v, v2, b)
  {
    forall c | 0 <= c < BIN_COUNT && c != b ensures BinSame(v, v2, c) {
      assert BinSame(v, v1, c);
      forall p | p in v.pages[c] ensures SamePage(v, v2, p) { assert SamePage(v, v1, p); }
    }
  }

  /// No bin but `b` changes, and no page comes but `id`.
  ghost predicate OneMorePage(v: View, v': View, b: nat, id: PageId) {
    OtherBinsKept(v, v', b) && forall p :: p in v'.heads ==> p in v.heads || p == id
  }

  lemma OneMoreCarved(t: seq<nat>, v: View, id: PageId, h: Head)
    requires Inv(t, v) && id !in v.heads && h.bin < BIN_COUNT
    ensures OneMorePage(v, Carved(v, id, h), h.bin, id)
  {
    JoinedOthers(t, v, Carved(v, id, h), id, h.bin);
  }

  lemma OneMoreServed(v: View, v1: View, v2: View, b: nat, id: PageId)
    requires OneMorePage(v, v1, b, id) && PageOnly(v1, v2, b)
    ensures OneMorePage(v, v2, b, id)
  {
    OtherBinsTrans(v, v1, v2, b);
  }

  lemma SweptThenMore(v: View, v1: View, v2: View, b: nat, lo: nat, hi: nat, id: PageId)
    requires OthersSwept(v, v1, b, lo, hi) && OneMorePage(v1, v2, b, id) && id !in v.heads
    ensures OthersSwept(v, v2, b, lo, hi)
  {
    SweptBefore(v, v1, v2, b, lo, hi);
  }

  lemma ServedOthers(v: View, v1: View, v2: View, b: nat, claim: Option<PageId>, lo: nat, hi: nat)
    requires OthersAfter(v, v1, b, claim, lo, hi) && PageOnly(v1, v2, b)
    ensures OthersAfter(v, v2, b, claim, lo, hi)
  {
    if AllBusy(v, b) && claim.None? {
      SweptBefore(v, v1, v2, b, lo, hi);
    } else {
      OtherBinsTrans(v, v1, v2, b);
    }
  }

  lemma MoreOthers(v: View, v1: View, v2: View, b: nat, claim: Option<PageId>, lo: nat, hi: nat, id: PageId)
    requires OthersAfter(v, v1, b, claim, lo, hi) && OneMorePage(v1, v2, b, id) && id !in v.heads
    ensures OthersAfter(v, v2, b, claim, lo, hi)
  {
    if AllBusy(v, b) && claim.None? {
      SweptThenMore(v, v1, v2, b, lo, hi, id);
    } else {
      OtherBinsTrans(v, v1, v2, b);
    }
  }

  // ----- the bins tracked ---------------------------------------------------

  /// `min` and `max` are the first and the last bin from `lo` up to before `b`
  /// whose countdown goes on, if any does.
  ghost predicate Tracked(v: View, v': View, lo: nat, b: nat, min: nat, max: nat) {
    if min <= max then lo <= min && max < b && StillRetired(v, v', min) && StillRetired(v, v', max)
    else max == 0
  }

  lemma TrackStep(v: View, v1: View, v2: View, lo: nat, b: nat, min: nat, max: nat, keep: bool, min2: nat, max2: nat)
    requires Tracked(v, v1, lo, b, min, max) && lo <= b < BIN_COUNT && OtherBinsKept(v1, v2, b) && BinSame(v, v1, b)
    requires keep <==> StillRetired(v1, v2, b)
    requires min2 == if keep && b < min then b else min
    requires max2 == if keep && b > max then b else max
    requires min > max ==> min >= b
    ensures Tracked(v, v2, lo, b + 1, min2, max2)
  {
    if min <= max { StillThere(v, v1, v2, b, min); StillThere(v, v1, v2, b, max); }
  }

  lemma StillThere(v: View, v1: View, v2: View, b: nat, c: nat)
    requires StillRetired(v, v1, c) && OtherBinsKept(v1, v2, b) && c != b && c < BIN_COUNT
    ensures StillRetired(v, v2, c)
  {
    assert BinSame(v1, v2, c);
    assert SamePage(v1, v2, v1.pages[c][0]);
  }

  // ----- sweeping -----------------------------------------------------------

  /// A sweep from bin `lo` has reached bin `b`; `min` to `max` tracks the bins
  /// whose countdown goes on.
  ghost predicate SweptTo(v: View, v': View, lo: nat, b: nat, force: bool, min: nat, max: nat) {
    && Evolves(v, v')
    && (forall c :: 0 <= c < BIN_COUNT ==>
          if lo <= c < b then Swept(v, v', c, force) && (StillRetired(v, v', c) ==> min <= c <= max)
          else BinSame(v, v', c))
  }

  lemma SweepStep(v: View, v1: View, v2: View, lo: nat, b: nat, force: bool,
                  min: nat, max: nat, keep: bool, min2: nat, max2: nat)
    requires SweptTo(v, v1, lo, b, force, min, max) && lo <= b < BIN_COUNT
    requires Evolves(v1, v2) && Swept(v1, v2, b, force) && (StillRetired(v1, v2, b) ==> keep)
    requires OtherBinsKept(v1, v2, b)
    requires min2 <= min && max <= max2 && (keep ==> min2 <= b <= max2)
    ensures SweptTo(v, v2, lo, b + 1, force, min2, max2)
  {
    EvolvesTrans(v, v1, v2);
    forall c | 0 <= c < BIN_COUNT
      ensures if lo <= c < b + 1 then Swept(v, v2, c, force) && (StillRetired(v, v2, c) ==> min2 <= c <= max2)
              else BinSame(v, v2, c)
    {
      if lo <= c < b {
        SweptThenSame(v, v1, v2, c, force);
        if StillRetired(v, v2, c) { SameStillRetired(v, v1, v2, c); }
      } else if c == b {
        SameThenSwept(v, v1, v2, c, force);
      } else {
        SameTrans(v, v1, v2, c);
      }
    }
  }

  /// Every bin from `lo` to `hi` was swept once, and no other; `min` and `max` are
  /// the first and the last whose countdown goes on, if any does.
  ghost predicate RangeSwept(v: View, v': View, lo: nat, hi: nat, force: bool, min: nat, max: nat) {
    && (forall b :: lo <= b <= hi ==> Swept(v, v', b, force) && (StillRetired(v, v', b) ==> min <= b <= max))
    && (forall b :: 0 <= b < BIN_COUNT && !(lo <= b <= hi) ==> BinSame(v, v', b))
    && (min <= max ==> StillRetired(v, v', min) && StillRetired(v, v', max))
  }

  lemma SweepFirst(t: seq<nat>, v: View, lo: nat, force: bool, min: nat)
    requires Inv(t, v) && min > 0
    ensures SweptTo(v, v, lo, lo, force, min, 0) && Tracked(v, v, lo, lo, min, 0)
  {
    AllBinsSame(t, v);
  }

  lemma SweepDone(v: View, v': View, lo: nat, hi: nat, b: nat, force: bool, min: nat, max: nat)
    requires SweptTo(v, v', lo, b, force, min, max) && Tracked(v, v', lo, b, min, max)
    requires hi < BIN_COUNT && b == if lo <= hi then hi + 1 else lo
    ensures RangeSwept(v, v', lo, hi, force, min, max)
  {
  }

  lemma SameStillRetired(v: View, v1: View, v2: View, c: nat)
    requires BinSame(v1, v2, c) && StillRetired(v, v2, c)
    ensures StillRetired(v, v1, c)
  {
    assert SamePage(v1, v2, v1.pages[c][0]);
  }

  // ----- serving a block ----------------------------------------------------

  datatype Served = Served(page: PageId, block: Block)

  lemma OneServed(v: View, v': View, p: PageId, b: Block)
    requires OnlyAt(v.heads, v'.heads, p) && v'.users == v.users && b !in v.heads[p].q.live
    requires v'.heads[p].q.live == v.heads[p].q.live + multiset{b}
    ensures Serves(v, v', p, b)
  {
  }

  lemma NoneServed(v: View, v': View, p: PageId)
    requires OnlyAt(v.heads, v'.heads, p) && v'.users == v.users
    requires v'.heads[p].q.live == v.heads[p].q.live
    ensures SameLive(v, v')
  {
  }

  lemma SameLiveTrans(v: View, v1: View, v2: View)
    requires SameLive(v, v1) && SameLive(v1, v2)
    ensures SameLive(v, v2)
  {
  }

  lemma ServedLater(v: View, v1: View, v2: View, p: PageId, b: Block)
    requires SameLive(v, v1) && Serves(v1, v2, p, b)
    ensures Serves(v, v2, p, b)
  {
  }

  /// What an allocation says of the pages, from before a fruitless look at the
  /// direct cache.
  lemma AfterMiss(t: seq<nat>, v: View, v1: View, v2: View, b: nat, claim: Option<PageId>,
                  r: Option<Served>, next: PageId)
    requires Inv(t, v) && b < BIN_COUNT && (claim.Some? ==> claim.value in v.heads)
    requires SameLive(v, v1) && SameRoom(v, v1)
    requires r.None? ==> SameLive(v1, v2) && NothingToServe(v1, b, claim)
    requires r.Some? ==> Serves(v1, v2, r.value.page, r.value.block) && Chosen(v1, b, claim, r.value.page, next)
    ensures r.None? ==> SameLive(v, v2) && NothingToServe(v, b, claim)
    ensures r.Some? ==> Serves(v, v2, r.value.page, r.value.block) && Chosen(v, b, claim, r.value.page, next)
  {
    ChosenKept(t, v, v1, b, claim, if r.Some? then r.value.page else 0, next);
  }

  /// Block `s.block` of page `s.page` is live, in a linked page of block size `bs`.
  predicate ServedFrom(v: View, s: Served, bs: nat) {
    && s.page in v.heads && s.page !in v.orphans
    && s.block in v.heads[s.page].q.live && v.heads[s.page].bs == bs
  }

  lemma ServingSize(t: seq<nat>, v: View, p: PageId, w: nat)
    requires IsBinSizes(t) && Inv(t, v)
    requires 0 < w <= MAX_WSIZE && p in v.heads && p !in v.orphans && v.heads[p].bin == WBin(w)
    ensures Serving(v, p, w) && v.heads[p].bs == t[WBin(w)]
  {
    ClassFacts(t, w);
    assert HeadOk(t, v.heads[p]);
  }

  // ----- pointers and blocks ------------------------------------------------

  lemma LinkedSomewhere(t: seq<nat>, v: View, p: PageId) returns (at: nat)
    requires Inv(t, v) && p in v.heads && p !in v.orphans
    ensures v.heads[p].bin < |v.pages| && at < |v.pages[v.heads[p].bin]| && v.pages[v.heads[p].bin][at] == p
  {
    assert p in v.pages[v.heads[p].bin];
    at :| 0 <= at < |v.pages[v.heads[p].bin]| && v.pages[v.heads[p].bin][at] == p;
  }

  /// The page map leads from a pointer to its page.
  lemma UserMapped(t: seq<nat>, v: View, ptr: nat)
    requires Inv(t, v) && ptr in v.users
    ensures ptr / SLICE_SIZE in v.mapped && v.mapped[ptr / SLICE_SIZE] == v.users[ptr].page
    ensures v.users[ptr].page in v.heads && UserOk(v.heads[v.users[ptr].page], ptr, v.users[ptr])
  {
    LiveAddressMapped(t, v, v.users[ptr].page, v.users[ptr].block, ptr);
  }

  lemma StartBelow(t: seq<nat>, h: Head, b: Block)
    requires HeadOk(t, h) && b < Reserved(h)
    ensures BlockAt(h, b) + h.bs <= MAX_SLICES * SLICE_SIZE <= LIMIT
    ensures Start(h) % 16 == 0
  {
    BlockInside(t, h, b);
  }

  lemma StartInRange(t: seq<nat>, v: View, p: PageId, b: Block)
    requires Inv(t, v) && Live(v, p, b)
    ensures HeadOk(t, v.heads[p]) && b < Reserved(v.heads[p])
    ensures BlockAt(v.heads[p], b) + v.heads[p].bs <= LIMIT && Start(v.heads[p]) % 16 == 0
  {
    LiveBelowReserved(Reserved(v.heads[p]), v.heads[p].q, b);
    StartBelow(t, v.heads[p], b);
  }

  lemma SameLiveLeak(v: View, v': View)
    requires SameLive(v, v')
    ensures NoLeak(v) ==> NoLeak(v')
  {
    if NoLeak(v) {
      forall p: PageId, b: Block | Live(v', p, b) ensures HasUser(v', p, b) {
        assert Live(v, p, b) && HasUser(v, p, b);
      }
    }
  }

  /// Which way a request goes, and what it is served from.
  lemma RequestFacts(t: seq<nat>, size: Word)
    requires IsBinSizes(t)
    ensures var s := Clamped(size);
      && (s + SLICE_SIZE <= LIMIT <==> size + SLICE_SIZE <= LIMIT)
      && (s > 8 * MAX_WSIZE ==> BlockSizeFor(t, size) == HugeBlock(s))
      && (s <= 8 * MAX_WSIZE ==>
            && 0 < WSize(s) <= MAX_WSIZE && 0 < WBin(WSize(s)) < BIN_HUGE
            && BlockSizeFor(t, size) == t[WBin(WSize(s))])
  {
    var s := Clamped(size);
    BlockSizeIs(t, size);
    if s <= 8 * MAX_WSIZE { ClassFacts(t, WSize(s)); }
  }

  lemma FoundBlock(h: Head, ptr: nat, x: Piece)
    requires UserOk(h, ptr, x) && h.bs > 0
    ensures ptr >= Start(h) && BlockAt(h, x.block) >= Start(h)
    ensures (if h.interior then RecoverBlockStart(ptr, Start(h), h.bs) else ptr) == BlockAt(h, x.block)
    ensures (BlockAt(h, x.block) - Start(h)) / h.bs == x.block
  {
    Recovers(Start(h), h.bs, x.block, ptr - BlockAt(h, x.block));
    Divided(x.block * h.bs, h.bs, x.block);
  }

  /// A page with more in use than is queued has a live block.
  lemma UsedAndDrained(reserved: nat, q: Lists)
    requires WellFormed(reserved, q) && q.used > |q.xfree|
    ensures q.live != multiset{}
  {
  }

  /// A partial collect leaves just the block that was pushed, and then another
  /// block is in use; or it has become a whole collect.
  lemma PartlyLeavesOne(reserved: nat, q: Lists, b: Block)
    requires WellFormed(reserved, q) && q.xfree != [] && q.xfree[0] == b
    ensures var q' := PartlyCollected(q, b);
      q'.xfree == [] || (|q'.xfree| == 1 && q'.used >= 2)
  {
    var q1 := TakeBelow(q, b);
    assert IndexOf(q.xfree, b) == 0;
    assert |Below(q, b)| == |q.xfree| - 1;
    assert |q1.xfree| == 1 && q1.used == |q.live| + 1;
  }

  // ----- collecting a queue -------------------------------------------------

  /// Drained, and with a block in use or, unless forced, retired.
  predicate Settled(h: Head, force: bool) {
    h.q.xfree == [] && h.q.local == [] && (h.q.used != 0 || (!force && h.retire != 0))
  }

  predicate BinSettled(v: View, b: nat, force: bool) {
    b < |v.pages| && forall p :: p in v.pages[b] ==> p in v.heads && Settled(v.heads[p], force)
  }

  ghost predicate PageCollected(v: View, v': View, p: PageId, at: nat, force: bool, kept: bool)
  {
    && p in v.heads && v.heads[p].bin < |v.pages| && at < |v.pages[v.heads[p].bin]|
    && (forall q :: q in v.heads && q != p ==> SamePage(v, v', q))
    && (kept <==> p in v'.heads)
    && (kept <==> MustKeep(v, p, force))
    && (if kept then v'.pages == v.pages else v'.pages == Unlinked(v.pages, v.heads[p].bin, at))
    && (kept ==> Settled(v'.heads[p], force) && v'.heads[p] == CollectedHead(v.heads[p]))
  }

  /// A page stays if it has a live block or, unless forced, if it is retired
  /// already or the sole page of its class.
  predicate MustKeep(v: View, p: PageId, force: bool)
    requires p in v.heads && v.heads[p].bin < |v.pages|
  {
    v.heads[p].q.live != multiset{} || (!force && (v.heads[p].retire != 0 || Sole(v, p)))
  }

  /// Its header then: drained, with the countdown armed if it is newly empty.
  function CollectedHead(h: Head): Head {
    h.(q := Collected(h.q), retire := if h.q.live != multiset{} || h.retire != 0 then h.retire else Cycles(h))
  }

  lemma DrainedUsed(reserved: nat, q: Lists)
    requires WellFormed(reserved, q)
    ensures Collected(q).used == |q.live| && (Collected(q).used != 0 <==> q.live != multiset{})
  {
  }

  /// The first `i` pages of what the queue was are done, `at` of them are kept.
  ghost predicate CollectedTo(v: View, b: nat, queue: seq<PageId>, i: nat, at: nat, force: bool) {
    && b < |v.pages| && i <= |queue| && at <= |v.pages[b]|
    && v.pages[b][at..] == queue[i..]
    && (forall k :: 0 <= k < at ==> v.pages[b][k] in v.heads && Settled(v.heads[v.pages[b][k]], force))
  }

  lemma CollectStep(t: seq<nat>, v: View, v': View, b: nat, queue: seq<PageId>,
                    i: nat, at: nat, force: bool, kept: bool)
    requires Inv(t, v) && CollectedTo(v, b, queue, i, at, force) && i < |queue| && b < BIN_COUNT
    requires at < |v.pages[b]| && PageCollected(v, v', v.pages[b][at], at, force, kept)
    requires v.heads[v.pages[b][at]].bin == b
    ensures CollectedTo(v', b, queue, i + 1, if kept then at + 1 else at, force)
  {
    assert queue[i..][1..] == queue[i + 1..];
    forall k | 0 <= k < at ensures v'.pages[b][k] in v'.heads && Settled(v'.heads[v'.pages[b][k]], force) {
      assert v.pages[b][k] != v.pages[b][at];
      assert SamePage(v, v', v.pages[b][k]);
    }
  }

  /// What becomes of page `p` of bin `b`, as it was at the beginning: with a live
  /// block, or retired already and not forced out, it stays.
  ghost predicate PageFate(v: View, kept: seq<PageId>, p: PageId, force: bool) {
    && p in v.heads
    && (v.heads[p].q.live != multiset{} || (!force && v.heads[p].retire != 0) ==> p in kept)
    && (force && v.heads[p].q.live == multiset{} ==> p !in kept)
  }

  /// Of `queue`, as it was at the beginning, the first `i` pages are done.
  ghost predicate FatesTo(v0: View, v: View, b: nat, queue: seq<PageId>, i: nat, at: nat, force: bool) {
    && b < |v.pages| && i <= |queue| && at <= |v.pages[b]| && Q.Distinct(queue)
    && (forall k :: 0 <= k < i ==> PageFate(v0, v.pages[b][..at], queue[k], force))
    && (forall k :: 0 <= k < at ==> v.pages[b][k] in queue[..i])
    && (forall k :: i <= k < |queue| ==> SamePage(v0, v, queue[k]))
    && (!force && b != BIN_HUGE && queue != [] ==> v.pages[b] != [])
  }

  lemma FateStep(t: seq<nat>, v0: View, v: View, v': View, b: nat, queue: seq<PageId>,
                 i: nat, at: nat, force: bool, kept: bool)
    requires Inv(t, v) && CollectedTo(v, b, queue, i, at, force) && FatesTo(v0, v, b, queue, i, at, force)
    requires i < |queue| && b < BIN_COUNT && at < |v.pages[b]| && v.pages[b][at] == queue[i]
    requires PageCollected(v, v', queue[i], at, force, kept) && v.heads[queue[i]].bin == b
    ensures FatesTo(v0, v', b, queue, i + 1, if kept then at + 1 else at, force)
  {
    var at' := if kept then at + 1 else at;
    var was, now := v.pages[b][..at], v'.pages[b][..at'];
    assert now == if kept then was + [queue[i]] else was;
    assert SamePage(v0, v, queue[i]);
    forall k | 0 <= k < i + 1 ensures PageFate(v0, now, queue[k], force) {
      if k < i { assert PageFate(v0, was, queue[k], force); } else { KeptOnce(was, queue, i); }
    }
    forall k | 0 <= k < at' ensures v'.pages[b][k] in queue[..i + 1] {
      if k < at { assert v.pages[b][k] in queue[..i]; } else { assert queue[..i + 1][i] == queue[i]; }
    }
    forall k | i + 1 <= k < |queue| ensures SamePage(v0, v', queue[k]) {
      assert SamePage(v0, v, queue[k]) && SamePage(v, v', queue[k]);
    }
  }

  lemma KeptOnce(was: seq<PageId>, queue: seq<PageId>, i: nat)
    requires i < |queue| && Q.Distinct(queue) && forall k :: 0 <= k < |was| ==> was[k] in queue[..i]
    ensures queue[i] !in was
  {
  }

  /// What a collect does to bin `b`: pages leave it only if they have no live
  /// block, forced all of those, and not forced neither retired ones nor the last
  /// of a size class.
  ghost predicate BinCollected(v: View, v': View, b: nat, force: bool) {
    && b < |v.pages| && b < |v'.pages|
    && (forall p :: p in v.pages[b] ==> PageFate(v, v'.pages[b], p, force))
    && (forall p :: p in v'.pages[b] ==> p in v.pages[b])
    && (!force && b != BIN_HUGE && v.pages[b] != [] ==> v'.pages[b] != [])
  }

  lemma FatesDone(v: View, v': View, b: nat, queue: seq<PageId>, i: nat, at: nat, force: bool)
    requires b < |v.pages| && queue == v.pages[b] && FatesTo(v, v', b, queue, i, at, force)
    requires CollectedTo(v', b, queue, i, at, force) && i >= |queue|
    ensures BinCollected(v, v', b, force)
  {
    assert |v'.pages[b][at..]| == |v'.pages[b]| - at;
    assert v'.pages[b][..at] == v'.pages[b] && queue[..i] == queue;
    forall p | p in v.pages[b] ensures PageFate(v, v'.pages[b], p, force) {
      var k :| 0 <= k < |queue| && queue[k] == p;
      assert PageFate(v, v'.pages[b][..at], queue[k], force);
    }
  }

  ghost predicate CollectedBelow(v: View, v': View, b: nat, force: bool) {
    forall c :: 0 <= c < BIN_COUNT ==> if c < b then BinCollected(v, v', c, force) else BinSame(v, v', c)
  }

  lemma BelowStep(v: View, v1: View, v2: View, b: nat, force: bool)
    requires CollectedBelow(v, v1, b, force) && b < BIN_COUNT
    requires BinCollected(v1, v2, b, force) && OtherBinsKept(v1, v2, b)
    ensures CollectedBelow(v, v2, b + 1, force)
  {
    forall c | 0 <= c < BIN_COUNT
      ensures if c < b + 1 then BinCollected(v, v2, c, force) else BinSame(v, v2, c)
    {
      if c < b {
        assert BinCollected(v, v1, c, force) && BinSame(v1, v2, c);
      } else if c == b {
        SameThenCollected(v, v1, v2, b, force);
      } else {
        SameTrans(v, v1, v2, c);
      }
    }
  }

  lemma SameThenCollected(v: View, v1: View, v2: View, b: nat, force: bool)
    requires BinSame(v, v1, b) && BinCollected(v1, v2, b, force)
    ensures BinCollected(v, v2, b, force)
  {
    forall p | p in v.pages[b] ensures PageFate(v, v2.pages[b], p, force) {
      assert SamePage(v, v1, p) && PageFate(v1, v2.pages[b], p, force);
    }
  }

  lemma CollectOtherBins(t: seq<nat>, v: View, v': View, p: PageId, at: nat, force: bool, kept: bool, c: nat)
    requires Inv(t, v) && PageCollected(v, v', p, at, force, kept) && c < BIN_COUNT && c != v.heads[p].bin
    ensures BinSame(v, v', c)
  {
    forall q | q in v.pages[c] ensures SamePage(v, v', q) {
      assert v.heads[q].bin == c;
    }
  }

  lemma CollectNext(t: seq<nat>, v: View, b: nat, queue: seq<PageId>, i: nat, at: nat, force: bool)
    requires Inv(t, v) && CollectedTo(v, b, queue, i, at, force) && i < |queue| && b < BIN_COUNT
    ensures at < |v.pages[b]| && v.pages[b][at] == queue[i]
    ensures queue[i] in v.heads && queue[i] !in v.orphans && v.heads[queue[i]].bin == b
  {
    assert v.pages[b][at..][0] == queue[i..][0];
    assert queue[i] in v.pages[b];
  }

  lemma CollectOthers(t: seq<nat>, v: View, v1: View, v2: View, p: PageId, at: nat, force: bool, kept: bool)
    requires Inv(t, v1) && PageCollected(v1, v2, p, at, force, kept) && OtherBinsKept(v, v1, v1.heads[p].bin)
    ensures OtherBinsKept(v, v2, v1.heads[p].bin)
  {
    forall c | 0 <= c < BIN_COUNT && c != v1.heads[p].bin ensures BinSame(v, v2, c) {
      CollectOtherBins(t, v1, v2, p, at, force, kept, c);
      SameTrans(v, v1, v2, c);
    }
  }

  lemma KeptCollected(v: View, v': View, p: PageId, at: nat, force: bool)
    requires OnlyAt(v.heads, v'.heads, p) && v'.pages == v.pages && Settled(v'.heads[p], force)
    requires v.heads[p].bin < |v.pages| && at < |v.pages[v.heads[p].bin]|
    requires MustKeep(v, p, force) && v'.heads[p] == CollectedHead(v.heads[p])
    ensures PageCollected(v, v', p, at, force, true)
  {
  }

  lemma GoneCollected(v: View, v1: View, p: PageId, at: nat, force: bool)
    requires OnlyAt(v.heads, v1.heads, p) && v1.pages == v.pages && v1.heads[p].bin == v.heads[p].bin
    requires v.heads[p].bin < |v.pages| && at < |v.pages[v.heads[p].bin]| && !MustKeep(v, p, force)
    ensures PageCollected(v, Released(Orphaned(v1, p, at), p), p, at, force, false)
  {
  }

  /// An emptied page goes when forced; else it stays if it was retired already or
  /// is the sole one of its class, with its countdown armed.
  ghost predicate EmptySettled(v: View, v': View, p: PageId, at: nat, force: bool) {
    && PlaceOf(v, p, at)
    && (p in v'.heads <==> !force && (v.heads[p].retire != 0 || Sole(v, p)))
    && if p in v'.heads then
         && OnlyAt(v.heads, v'.heads, p) && v' == v.(heads := v'.heads)
         && v'.heads[p].retire == (if v.heads[p].retire != 0 then v.heads[p].retire else Cycles(v.heads[p]))
         && v'.heads[p] == v.heads[p].(retire := v'.heads[p].retire) && v'.heads[p].retire != 0
       else v' == Released(Orphaned(v, p, at), p)
  }

  /// A page drained, and settled if that emptied it.
  lemma CollectedIs(v: View, v1: View, v': View, p: PageId, at: nat, force: bool)
    requires PlaceOf(v, p, at) && WellFormed(Reserved(v.heads[p]), v.heads[p].q)
    requires OnlyAt(v.heads, v1.heads, p) && v1 == v.(heads := v1.heads)
    requires v1.heads[p] == v.heads[p].(q := Collected(v.heads[p].q))
    requires if v1.heads[p].q.used == 0 then EmptySettled(v1, v', p, at, force) else v' == v1
    ensures PageCollected(v, v', p, at, force, p in v'.heads)
  {
    DrainedUsed(Reserved(v.heads[p]), v.heads[p].q);
    if p in v'.heads {
      OnlyAtTrans(v.heads, v1.heads, v'.heads, p);
      KeptCollected(v, v', p, at, force);
    } else {
      GoneCollected(v, v1, p, at, force);
    }
  }

  ghost predicate CollectingBin(v: View, v': View, b: nat, queue: seq<PageId>, i: nat, at: nat, force: bool) {
    && Evolves(v, v') && CollectedTo(v', b, queue, i, at, force) && OtherBinsKept(v, v', b)
    && FatesTo(v, v', b, queue, i, at, force)
  }

  lemma CollectStart(t: seq<nat>, v: View, b: nat, force: bool)
    requires Inv(t, v) && b < BIN_COUNT
    ensures b < |v.pages| && CollectingBin(v, v, b, v.pages[b], 0, 0, force)
  {
    QueueFacts(t, v, b);
  }

  lemma CollectedAll(v: View, v': View, b: nat, queue: seq<PageId>, i: nat, at: nat, force: bool)
    requires CollectingBin(v, v', b, queue, i, at, force) && i >= |queue| && b < |v.pages| && queue == v.pages[b]
    ensures BinSettled(v', b, force) && OtherBinsKept(v, v', b) && Evolves(v, v') && BinCollected(v, v', b, force)
  {
    FatesDone(v, v', b, queue, i, at, force);
    assert |v'.pages[b][at..]| == |v'.pages[b]| - at;
  }

  lemma CollectLoop(t: seq<nat>, v: View, v1: View, v2: View, b: nat, queue: seq<PageId>,
                    i: nat, at: nat, force: bool, kept: bool)
    requires Inv(t, v1) && CollectingBin(v, v1, b, queue, i, at, force) && i < |queue| && b < BIN_COUNT
    requires Evolves(v1, v2) && PageCollected(v1, v2, queue[i], at, force, kept)
    ensures CollectingBin(v, v2, b, queue, i + 1, if kept then at + 1 else at, force)
  {
    CollectNext(t, v1, b, queue, i, at, force);
    EvolvesTrans(v, v1, v2);
    CollectStep(t, v1, v2, b, queue, i, at, force, kept);
    FateStep(t, v, v1, v2, b, queue, i, at, force, kept);
    CollectOthers(t, v, v1, v2, queue[i], at, force, kept);
  }

  ghost predicate SettledBelow(v: View, b: nat, force: bool) {
    forall c :: 0 <= c < b ==> BinSettled(v, c, force)
  }

  lemma SettledStep(v: View, v': View, b: nat, force: bool)
    requires SettledBelow(v, b, force) && b < BIN_COUNT && BinSettled(v', b, force) && OtherBinsKept(v, v', b)
    ensures SettledBelow(v', b + 1, force)
  {
    forall c | 0 <= c < b ensures BinSettled(v', c, force) {
      assert BinSettled(v, c, force) && BinSame(v, v', c);
      forall p | p in v'.pages[c] ensures p in v'.heads && Settled(v'.heads[p], force) {
        assert SamePage(v, v', p);
      }
    }
  }

  ghost predicate NoPages(v: View) {
    |v.pages| == BIN_COUNT && forall b :: 0 <= b < BIN_COUNT ==> v.pages[b] == []
  }

  /// A settled page has a live block, and so somebody holds a pointer.
  lemma SettledHasUser(t: seq<nat>, v: View, c: nat) returns (ptr: nat)
    requires Inv(t, v) && NoLeak(v) && c < BIN_COUNT && BinSettled(v, c, true) && v.pages[c] != []
    ensures ptr in v.users
  {
    var p := v.pages[c][0];
    var q := v.heads[p].q;
    assert WellFormed(Reserved(v.heads[p]), q) && |q.live| != 0;
    var b :| b in q.live;
    assert Live(v, p, b) && HasUser(v, p, b);
    ptr :| ptr in v.users && v.users[ptr].page == p && v.users[ptr].block == b;
  }

  lemma NothingLeft(t: seq<nat>, v: View)
    requires Inv(t, v) && NoLeak(v) && SettledBelow(v, BIN_COUNT, true)
    ensures v.users == map[] ==> NoPages(v)
  {
    forall c | 0 <= c < BIN_COUNT && v.users == map[] ensures v.pages[c] == [] {
      if v.pages[c] != [] { var ptr := SettledHasUser(t, v, c); }
    }
  }

  // ----- handing every page over --------------------------------------------

  /// Page `p` is released, or abandoned with a live block and drained.
  predicate Handed(v: View, p: PageId) {
    p in v.heads ==> p in v.orphans && v.heads[p].q.live != multiset{} && v.heads[p].q.xfree == []
  }

  ghost predicate OthersHanded(v: View, v': View, p: PageId) {
    forall q :: q != p && Handed(v, q) ==> Handed(v', q)
  }

  /// The first `i` pages of bin `b` have been handed over.
  ghost predicate DroppedTo(v: View, v': View, b: nat, i: nat) {
    && b < |v.pages| == BIN_COUNT && i <= |v.pages[b]|
    && v'.pages == v.pages[b := v.pages[b][i..]]
    && (forall k :: 0 <= k < i ==> Handed(v', v.pages[b][k]))
    && (forall p :: Handed(v, p) ==> Handed(v', p))
  }

  lemma DropStep(v: View, v1: View, v2: View, b: nat, i: nat)
    requires DroppedTo(v, v1, b, i) && v1.pages[b] != [] && v2.pages == Unlinked(v1.pages, b, 0)
    requires Handed(v2, v1.pages[b][0]) && OthersHanded(v1, v2, v1.pages[b][0])
    ensures DroppedTo(v, v2, b, i + 1)
  {
    assert v.pages[b][i..][1..] == v.pages[b][i + 1..];
    assert Q.Without(v1.pages[b], 0) == v.pages[b][i + 1..];
  }

  lemma DroppedAll(v: View, v': View, b: nat, i: nat)
    requires DroppedTo(v, v', b, i) && v'.pages[b] == []
    ensures v'.pages == v.pages[b := []]
    ensures forall p :: p in v.pages[b] ==> Handed(v', p)
  {
    assert i == |v.pages[b]|;
  }

  /// The bins below `b` have been emptied and their pages handed over.
  ghost predicate HandedBelow(v: View, v': View, b: nat) {
    && |v.pages| == BIN_COUNT && |v'.pages| == BIN_COUNT
    && (forall c :: 0 <= c < BIN_COUNT ==> v'.pages[c] == if c < b then [] else v.pages[c])
    && (forall c, p :: 0 <= c < b && c < BIN_COUNT && p in v.pages[c] ==> Handed(v', p))
  }

  lemma AllBinsHanded(t: seq<nat>, v: View)
    requires Inv(t, v)
    ensures HandedBelow(v, v, 0)
  {
  }

  lemma HandedStep(v: View, v1: View, v2: View, b: nat)
    requires HandedBelow(v, v1, b) && b < BIN_COUNT && |v2.pages| == BIN_COUNT && v2.pages == v1.pages[b := []]
    requires forall p :: p in v1.pages[b] ==> Handed(v2, p)
    requires forall p :: Handed(v1, p) ==> Handed(v2, p)
    ensures HandedBelow(v, v2, b + 1)
  {
  }

  lemma AllHanded(t: seq<nat>, v: View, v': View)
    requires Inv(t, v) && HandedBelow(v, v', BIN_COUNT)
    ensures NoPages(v') && forall p :: p in v.heads && p !in v.orphans ==> Handed(v', p)
  {
    forall p | p in v.heads && p !in v.orphans ensures Handed(v', p) {
      assert p in v.pages[v.heads[p].bin];
    }
  }
}
