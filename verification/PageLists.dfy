/// The page header and its three block lists, threaded through the blocks'
/// first words. Each method is proved against the list operation of the page
/// machine that it implements.

module PageLists {
  import opened PageProtocol
  import opened PageConservation

  /// The null link.
  const NULL: int := -1

  const MAX_EXTEND_SIZE: nat := 4096
  const MIN_EXTEND: nat := 1

  /// Following `link` from `head` visits exactly `s`.
  ghost predicate IsList(link: seq<int>, head: int, s: seq<Block>)
    decreases |s|
  {
    if s == [] then head == NULL
    else head == s[0] && s[0] < |link| && IsList(link, link[s[0]], s[1..])
  }

  function Reversed(s: seq<Block>): seq<Block> {
    if s == [] then [] else Reversed(s[1..]) + [s[0]]
  }

  lemma WholeBlocks(n: nat, d: nat)
    requires d >= 1
    ensures n / d * d <= n < (n / d + 1) * d
  {
  }

  /// Blocks one extend threads at most: as many as 4096 bytes hold, but one.
  function Batch(blockSize: nat): (n: nat)
    requires blockSize >= 1
    ensures n >= 1 && (n > 1 ==> n * blockSize <= MAX_EXTEND_SIZE)
    ensures (n + 1) * blockSize > MAX_EXTEND_SIZE
  {
    WholeBlocks(MAX_EXTEND_SIZE, blockSize);
    if MAX_EXTEND_SIZE / blockSize > MIN_EXTEND then MAX_EXTEND_SIZE / blockSize else MIN_EXTEND
  }

  function PageConfig(reserved: nat, blockSize: nat): Config
    requires blockSize >= 1
  {
    Config(reserved, Batch(blockSize), blockSize, false)
  }

  /// The stack after a foreign free of a live block.
  function Pushed(q: Lists, b: Block): Lists {
    q.(live := q.live - multiset{b}, xfree := [b] + q.xfree)
  }

  /// What a whole collect does to the lists when nobody interferes.
  function Collected(q: Lists): Lists {
    q.(free := q.local + Reversed(q.xfree) + q.free, local := [], xfree := [], used := q.used - |q.xfree|)
  }

  /// A collect has nothing to recycle.
  predicate NothingFreed(q: Lists) { q.xfree == [] && q.local == [] }

  /// What a whole collect_partly does, given the block just pushed.
  function PartlyCollected(q: Lists, b: Block): Lists
    requires b in q.xfree
  {
    var q1 := TakeBelow(q, b);
    if q1.used == 1 then Collected(q1) else q1
  }

  /// No block is lost or in two places, and `used` is exact, with no other
  /// thread in the middle of an operation.
  ghost predicate WellFormed(reserved: nat, q: Lists) {
    && q.capacity <= reserved
    && (forall b: Block :: ListCount(q, b) == if b < q.capacity then 1 else 0)
    && q.used == |q.live| + |q.xfree|
  }

  // ----- list lemmas --------------------------------------------------------

  ghost predicate Distinct(s: seq<Block>) {
    forall x: Block :: Count(s, x) <= 1
  }

  ghost predicate Disjoint(s: seq<Block>, s2: seq<Block>) {
    forall x: Block :: Count(s, x) + Count(s2, x) <= 1
  }

  lemma {:induction false} ListFrame(link: seq<int>, link': seq<int>, head: int, s: seq<Block>)
    requires IsList(link, head, s) && |link'| == |link|
    requires forall x: Block :: x in s && x < |link| ==> link'[x] == link[x]
    ensures IsList(link', head, s)
    decreases |s|
  {
    if s != [] {
      assert s[0] in s;
      ListFrame(link, link', link[s[0]], s[1..]);
    }
  }

  /// Writing one link outside the list.
  lemma ListWrite(link: seq<int>, b: Block, v: int, head: int, s: seq<Block>)
    requires IsList(link, head, s) && b < |link| && Count(s, b) == 0
    ensures IsList(link[b := v], head, s)
  {
    CountMember(s, b);
    ListFrame(link, link[b := v], head, s);
  }

  /// The list from its `k`-th element on.
  lemma {:induction false} ListFrom(link: seq<int>, head: int, s: seq<Block>, k: nat)
    requires IsList(link, head, s) && k < |s|
    ensures s[k] < |link|
    ensures IsList(link, s[k], s[k..])
    ensures IsList(link, link[s[k]], s[k + 1..])
    ensures link[s[k]] == if k + 1 < |s| then s[k + 1] else NULL
    decreases |s|
  {
    if k > 0 {
      ListFrom(link, link[s[0]], s[1..], k - 1);
      assert s[1..][k - 1..] == s[k..];
      assert s[1..][k..] == s[k + 1..];
    } else {
      assert s[0..] == s;
    }
  }

  lemma CountAt(s: seq<Block>, k: nat)
    requires k < |s|
    ensures Count(s, s[k]) >= 1
  {
    CountMember(s, s[k]);
  }

  lemma DistinctTail(s: seq<Block>, s2: seq<Block>)
    requires s != [] && Distinct(s)
    ensures Distinct(s[1..]) && Count(s[1..], s[0]) == 0
    ensures Disjoint(s, s2) ==> Disjoint(s[1..], s2)
  {
    assert forall x: Block :: Count(s, x) == (if s[0] == x then 1 else 0) + Count(s[1..], x);
  }

  /// Redirecting the last link of one list to the head of another joins them.
  lemma {:induction false} ListJoin(link: seq<int>, head: int, s: seq<Block>, head2: int, s2: seq<Block>)
    requires s != [] && IsList(link, head, s) && IsList(link, head2, s2)
    requires Distinct(s) && Disjoint(s, s2)
    ensures s[|s| - 1] < |link|
    ensures IsList(link[s[|s| - 1] := head2], head, s + s2)
    decreases |s|
  {
    ListFrom(link, head, s, |s| - 1);
    var last := s[|s| - 1];
    CountAt(s, |s| - 1);
    var link' := link[last := head2];
    assert (s + s2)[1..] == s[1..] + s2;
    if |s| == 1 {
      ListWrite(link, last, head2, head2, s2);
      assert s[1..] + s2 == s2;
    } else {
      DistinctTail(s, s2);
      ListJoin(link, link[s[0]], s[1..], head2, s2);
      CountAt(s[1..], |s| - 2);
      assert s[0] != last;
    }
  }

  /// Cutting the list after its `k`-th element.
  lemma {:induction false} ListCut(link: seq<int>, head: int, s: seq<Block>, k: nat)
    requires IsList(link, head, s) && k < |s| && Distinct(s)
    ensures s[k] < |link|
    ensures IsList(link[s[k] := NULL], head, s[..k + 1])
    decreases |s|
  {
    ListFrom(link, head, s, k);
    assert s[..k + 1][1..] == s[1..][..k];
    if k > 0 {
      DistinctTail(s, []);
      ListCut(link, link[s[0]], s[1..], k - 1);
      CountAt(s[1..], k - 1);
      assert s[0] != s[k];
    }
  }

  // ----- the collected lists are well formed --------------------------------

  lemma {:induction false} ReversedCount(s: seq<Block>, b: Block)
    ensures Count(Reversed(s), b) == Count(s, b)
    ensures |Reversed(s)| == |s|
  {
    if s != [] {
      ReversedCount(s[1..], b);
      CountConcat(Reversed(s[1..]), [s[0]], b);
      CountCons(s[0], [], b);
    }
  }

  lemma CollectedWellFormed(reserved: nat, q: Lists)
    requires WellFormed(reserved, q)
    ensures WellFormed(reserved, Collected(q))
  {
    forall b: Block ensures ListCount(Collected(q), b) == if b < q.capacity then 1 else 0 {
      CountConcat(q.local + Reversed(q.xfree), q.free, b);
      CountConcat(q.local, Reversed(q.xfree), b);
      ReversedCount(q.xfree, b);
      assert ListCount(q, b) == if b < q.capacity then 1 else 0;
    }
  }

  lemma PartlyWellFormed(reserved: nat, q: Lists, b: Block)
    requires WellFormed(reserved, q) && b in q.xfree
    ensures WellFormed(reserved, TakeBelow(q, b))
    ensures WellFormed(reserved, PartlyCollected(q, b))
  {
    var q1 := TakeBelow(q, b);
    forall x: Block ensures ListCount(q1, x) == if x < q.capacity then 1 else 0 {
      TakeBelowCount(q, b, x);
    }
    TakeBelowCount(q, b, 0);
    if q1.used == 1 {
      CollectedWellFormed(reserved, q1);
    }
  }

  lemma PopWellFormed(reserved: nat, q: Lists)
    requires WellFormed(reserved, q) && q.free != []
    ensures WellFormed(reserved, Pop(q))
  {
    forall x: Block ensures ListCount(Pop(q), x) == if x < q.capacity then 1 else 0 {
      PopCount(q, x);
      assert ListCount(q, x) == if x < q.capacity then 1 else 0;
    }
  }

  lemma PushWellFormed(reserved: nat, q: Lists, b: Block)
    requires WellFormed(reserved, q) && b in q.live
    ensures WellFormed(reserved, Push(q, b))
  {
    forall x: Block ensures ListCount(Push(q, b), x) == if x < q.capacity then 1 else 0 {
      CountCons(b, q.local, x);
      assert ListCount(q, x) == if x < q.capacity then 1 else 0;
    }
  }

  lemma PushedWellFormed(reserved: nat, q: Lists, b: Block)
    requires WellFormed(reserved, q) && b in q.live
    ensures WellFormed(reserved, Pushed(q, b))
  {
    forall x: Block ensures ListCount(Pushed(q, b), x) == if x < q.capacity then 1 else 0 {
      CountCons(b, q.xfree, x);
      assert ListCount(q, x) == if x < q.capacity then 1 else 0;
    }
  }

  lemma Apart(reserved: nat, q: Lists, b: Block)
    requires WellFormed(reserved, q)
    ensures Count(q.free, b) + Count(q.local, b) + Count(q.xfree, b) + q.live[b] <= 1
    ensures b in q.free || b in q.local || b in q.xfree || b in q.live <==> b < q.capacity
    ensures b in q.free <==> Count(q.free, b) == 1
    ensures b in q.local <==> Count(q.local, b) == 1
    ensures b in q.xfree <==> Count(q.xfree, b) == 1
  {
    assert ListCount(q, b) == if b < q.capacity then 1 else 0;
    CountMember(q.free, b);
    CountMember(q.local, b);
    CountMember(q.xfree, b);
  }

  // ----- disjointness used by the loops -------------------------------------

  lemma {:induction false} ReversedSnoc(s: seq<Block>, b: Block)
    ensures Reversed(s + [b]) == [b] + Reversed(s)
  {
    if s == [] {
      assert s + [b] == [b];
    } else {
      ReversedSnoc(s[1..], b);
      assert (s + [b])[1..] == s[1..] + [b];
    }
  }

  /// In the middle of the splice loop the block being moved is on no list that
  /// must survive the move.
  lemma SpliceApart(reserved: nat, q: Lists, k: nat)
    requires WellFormed(reserved, q) && k < |q.xfree|
    ensures var b := q.xfree[k];
      && Count(q.xfree[k + 1..], b) == 0
      && Count(q.local, b) == 0
      && Count(Reversed(q.xfree[..k]) + q.free, b) == 0
      && Reversed(q.xfree[..k + 1]) + q.free == [b] + (Reversed(q.xfree[..k]) + q.free)
  {
    var b := q.xfree[k];
    CountAt(q.xfree, k);
    Apart(reserved, q, b);
    CountSplit(q.xfree, k, b);
    assert q.xfree[k..] == [b] + q.xfree[k + 1..];
    CountCons(b, q.xfree[k + 1..], b);
    ReversedCount(q.xfree[..k], b);
    CountConcat(Reversed(q.xfree[..k]), q.free, b);
    assert q.xfree[..k + 1] == q.xfree[..k] + [b];
    ReversedSnoc(q.xfree[..k], b);
  }

  lemma LocalApart(reserved: nat, q: Lists)
    requires WellFormed(reserved, q)
    ensures Distinct(q.local) && Disjoint(q.local, Reversed(q.xfree) + q.free)
  {
    forall b: Block ensures Count(q.local, b) + Count(Reversed(q.xfree) + q.free, b) <= 1 {
      Apart(reserved, q, b);
      ReversedCount(q.xfree, b);
      CountConcat(Reversed(q.xfree), q.free, b);
    }
  }

  /// Blocks in the upper part of the stack, in the part below, and on the other
  /// lists are all different.
  lemma BelowApart(reserved: nat, q: Lists, b: Block)
    requires WellFormed(reserved, q) && b in q.xfree
    ensures Distinct(q.xfree) && Distinct(Below(q, b)) && Disjoint(Below(q, b), q.local)
    ensures forall x: Block :: x in Below(q, b) ==>
      Count(q.free, x) == 0 && Count(q.local, x) == 0 && Count(q.xfree[..IndexOf(q.xfree, b) + 1], x) == 0
    ensures Count(q.free, b) == 0 && Count(q.local, b) == 0 && Count(Below(q, b), b) == 0
  {
    var i := IndexOf(q.xfree, b);
    forall x: Block
      ensures Count(q.xfree[..i + 1], x) + Count(Below(q, b), x) + Count(q.local, x) + Count(q.free, x) <= 1
      ensures x in Below(q, b) ==> Count(Below(q, b), x) > 0
      ensures Count(q.xfree, x) <= 1
    {
      Apart(reserved, q, x);
      CountSplit(q.xfree, i + 1, x);
      CountMember(Below(q, b), x);
    }
    assert q.xfree[..i + 1][i] == b;
    CountAt(q.xfree[..i + 1], i);
  }

  /// One iteration of the loop in extend_free.
  lemma ExtendLink(link: seq<int>, reserved: nat, q: Lists, head: int, i: nat, hi: nat, lf: int, xh: int)
    requires WellFormed(reserved, q) && |link| == reserved
    requires q.capacity <= i < hi <= reserved
    requires IsList(link, head, Upto(i + 1, hi)) && IsList(link, lf, q.local) && IsList(link, xh, q.xfree)
    ensures IsList(link[i := head], i, Upto(i, hi))
    ensures IsList(link[i := head], lf, q.local) && IsList(link[i := head], xh, q.xfree)
  {
    Apart(reserved, q, i);
    CountUpto(i + 1, hi, i);
    ListWrite(link, i, head, head, Upto(i + 1, hi));
    ListWrite(link, i, head, lf, q.local);
    ListWrite(link, i, head, xh, q.xfree);
    assert Upto(i, hi)[1..] == Upto(i + 1, hi);
  }

  lemma GrownWellFormed(reserved: nat, c: Config, q: Lists)
    requires WellFormed(reserved, q) && c.reserved == reserved
    ensures WellFormed(reserved, Grow(c, q))
  {
    forall b: Block ensures ListCount(Grow(c, q), b) == if b < Grow(c, q).capacity then 1 else 0 {
      GrowCount(c, q, b);
      assert ListCount(q, b) == if b < q.capacity then 1 else 0;
    }
  }

  /// An empty free list becomes exactly the blocks newly threaded.
  lemma GrownEmpty(c: Config, q: Lists)
    requires q.capacity <= c.reserved && q.free == []
    ensures Grow(c, q) == q.(free := Upto(q.capacity, q.capacity + BatchSize(c, q)),
                             capacity := q.capacity + BatchSize(c, q))
  {
    var n := BatchSize(c, q);
    assert Upto(q.capacity, q.capacity + n) + [] == Upto(q.capacity, q.capacity + n);
  }

  // ----- the list-walking loops ---------------------------------------------

  /// The loop of extend_free: thread blocks `lo..hi`, lowest first, over an
  /// empty list.
  method ThreadBlocks(link: array<int>, lo: nat, hi: nat, ghost q: Lists, ghost lf: int, ghost xh: int)
    returns (head: int)
    requires WellFormed(link.Length, q) && q.capacity <= lo <= hi <= link.Length
    requires IsList(link[..], lf, q.local) && IsList(link[..], xh, q.xfree)
    modifies link
    ensures IsList(link[..], head, Upto(lo, hi))
    ensures IsList(link[..], lf, q.local) && IsList(link[..], xh, q.xfree)
  {
    head := NULL;
    var i := hi;
    while i > lo
      invariant lo <= i <= hi
      invariant IsList(link[..], head, Upto(i, hi))
      invariant IsList(link[..], lf, q.local) && IsList(link[..], xh, q.xfree)
    {
      i := i - 1;
      ExtendLink(link[..], link.Length, q, head, i, hi, lf, xh);
      ghost var before := link[..];
      link[i] := head;
      assert link[..] == before[i := head];
      head := i;
    }
  }

  /// One iteration of the splice loop of collect.
  lemma SpliceLink(link: seq<int>, q: Lists, k: nat, free: int, lf: int)
    requires WellFormed(|link|, q) && k < |q.xfree|
    requires IsList(link, q.xfree[k], q.xfree[k..])
    requires IsList(link, free, Reversed(q.xfree[..k]) + q.free) && IsList(link, lf, q.local)
    ensures q.xfree[k] < |link|
    ensures var b := q.xfree[k]; var link' := link[b := free];
      && IsList(link', link[b], q.xfree[k + 1..])
      && IsList(link', b, Reversed(q.xfree[..k + 1]) + q.free)
      && IsList(link', lf, q.local)
    ensures k + 1 < |q.xfree| ==> link[q.xfree[k]] == q.xfree[k + 1]
    ensures k + 1 == |q.xfree| ==> link[q.xfree[k]] == NULL
  {
    var b := q.xfree[k];
    ListFrom(link, b, q.xfree[k..], 0);
    assert q.xfree[k..][1..] == q.xfree[k + 1..];
    SpliceApart(|link|, q, k);
    ListWrite(link, b, free, link[b], q.xfree[k + 1..]);
    ListWrite(link, b, free, lf, q.local);
    ListWrite(link, b, free, free, Reversed(q.xfree[..k]) + q.free);
    assert ([b] + (Reversed(q.xfree[..k]) + q.free))[1..] == Reversed(q.xfree[..k]) + q.free;
  }

  /// The splice loop of collect: move the captured stack onto `free` one by one.
  method SpliceChain(link: array<int>, chain: int, free0: int, used0: int, ghost q: Lists, ghost lf: int)
    returns (free: int, used: int)
    requires WellFormed(link.Length, q)
    requires IsList(link[..], chain, q.xfree) && IsList(link[..], free0, q.free) && IsList(link[..], lf, q.local)
    modifies link
    ensures IsList(link[..], free, Reversed(q.xfree) + q.free) && IsList(link[..], lf, q.local)
    ensures used == used0 - |q.xfree|
  {
    free, used := free0, used0;
    var tf := chain;
    ghost var k := 0;
    assert Reversed(q.xfree[..0]) + q.free == q.free;
    while tf != NULL
      invariant 0 <= k <= |q.xfree| && used == used0 - k
      invariant tf == if k < |q.xfree| then q.xfree[k] else NULL
      invariant IsList(link[..], tf, q.xfree[k..])
      invariant IsList(link[..], free, Reversed(q.xfree[..k]) + q.free)
      invariant IsList(link[..], lf, q.local)
      decreases |q.xfree| - k
    {
      SpliceLink(link[..], q, k, free, lf);
      ghost var before := link[..];
      var next := link[tf];
      link[tf] := free;
      assert link[..] == before[tf := free];
      free := tf;
      used := used - 1;
      tf := next;
      k := k + 1;
    }
    assert q.xfree[..k] == q.xfree;
  }

  /// Walk to the last block of a non-empty list.
  method Tail(link: array<int>, head: int, ghost s: seq<Block>) returns (tail: nat)
    requires s != [] && IsList(link[..], head, s)
    ensures tail == s[|s| - 1] && tail < link.Length
  {
    ListFrom(link[..], head, s, 0);
    tail := head;
    ghost var k := 0;
    while link[tail] != NULL
      invariant k < |s| && tail == s[k] && tail < link.Length
      invariant link[tail] == if k + 1 < |s| then s[k + 1] else NULL
      decreases |s| - k
    {
      k := k + 1;
      ListFrom(link[..], head, s, k);
      tail := link[tail];
    }
  }

  /// Walk to the last block of a non-empty list, counting.
  method TailAndCount(link: array<int>, head: int, ghost s: seq<Block>) returns (last: nat, count: nat)
    requires s != [] && IsList(link[..], head, s)
    ensures last == s[|s| - 1] && last < link.Length
    ensures count == |s|
  {
    ListFrom(link[..], head, s, 0);
    last, count := head, 1;
    while true
      invariant 1 <= count <= |s| && last == s[count - 1] && last < link.Length
      invariant link[last] == if count < |s| then s[count] else NULL
      decreases |s| - count
    {
      var n := link[last];
      if n == NULL { break; }
      ListFrom(link[..], head, s, count);
      count := count + 1;
      last := n;
    }
  }

  /// Step 2 of collect on a non-empty `local_free`: adopt the whole list when
  /// `free` is empty, otherwise append `free` at its tail.
  method AppendLocal(link: array<int>, lf: int, free0: int, ghost s: seq<Block>, ghost s2: seq<Block>)
    returns (free: int)
    requires s != [] && IsList(link[..], lf, s) && IsList(link[..], free0, s2)
    requires Distinct(s) && Disjoint(s, s2)
    modifies link
    ensures IsList(link[..], free, s + s2)
  {
    if free0 == NULL {
      assert s + s2 == s;
    } else {
      var tail := Tail(link, lf, s);
      ListJoin(link[..], lf, s, free0, s2);
      ghost var before := link[..];
      link[tail] := free0;
      assert link[..] == before[tail := free0];
    }
    free := lf;
  }

  lemma CollectedFree(q: Lists)
    ensures Collected(q).free == q.local + (Reversed(q.xfree) + q.free)
    ensures q.local == [] ==> Collected(q).free == Reversed(q.xfree) + q.free
    ensures q.xfree == [] ==> Collected(q).free == q.local + q.free
    ensures q.xfree == [] ==> Reversed(q.xfree) + q.free == q.free
  {
    assert q.local + (Reversed(q.xfree) + q.free) == q.local + Reversed(q.xfree) + q.free;
    if q.xfree == [] { assert Reversed(q.xfree) + q.free == q.free; }
  }

  /// Migrating everything queued below `b` onto the local list.
  method MoveBelow(link: array<int>, b: nat, xh: int, free: int, lf: int, ghost q: Lists)
    returns (local: int, count: nat)
    requires WellFormed(link.Length, q) && b in q.xfree && Below(q, b) != []
    requires IsList(link[..], xh, q.xfree) && IsList(link[..], free, q.free) && IsList(link[..], lf, q.local)
    modifies link
    ensures IsList(link[..], xh, q.xfree[..IndexOf(q.xfree, b) + 1])
    ensures IsList(link[..], local, Below(q, b) + q.local) && IsList(link[..], free, q.free)
    ensures count == |Below(q, b)|
  {
    ghost var i := IndexOf(q.xfree, b);
    BelowApart(link.Length, q, b);
    ListFrom(link[..], xh, q.xfree, i);
    var next := link[b];
    ListCut(link[..], xh, q.xfree, i);
    ListWrite(link[..], b, NULL, next, Below(q, b));
    ListWrite(link[..], b, NULL, free, q.free);
    ListWrite(link[..], b, NULL, lf, q.local);
    ghost var cut := link[..][b := NULL];
    link[b] := NULL;
    assert link[..] == cut;
    var last, n := TailAndCount(link, next, Below(q, b));
    ListJoin(cut, next, Below(q, b), lf, q.local);
    assert last in Below(q, b);
    ListWrite(cut, last, lf, free, q.free);
    ListWrite(cut, last, lf, xh, q.xfree[..i + 1]);
    link[last] := lf;
    assert link[..] == cut[last := lf];
    local, count := next, n;
  }

  /// The lists after alloc_slow has refilled `free` as far as it can.
  function Refilled(c: Config, q: Lists): Lists
    requires q.capacity <= c.reserved
  {
    if q.free != [] then q
    else if Collected(q).free != [] then Collected(q)
    else Grow(c, Collected(q))
  }

  // ----- the page -----------------------------------------------------------

  class Page {
    const reserved: nat
    const blockSize: nat
    const link: array<int>        // first word of each block: next block or NULL
    var free: int
    var localFree: int
    var xhead: int                // block part of xthread_free
    var xowned: bool              // its low bit
    var used: int
    var capacity: nat
    var freeIsZero: bool
    ghost var q: Lists

    ghost predicate Valid()
      reads this, link
    {
      && link.Length == reserved && blockSize >= 1
      && capacity == q.capacity && used == q.used
      && IsList(link[..], free, q.free)
      && IsList(link[..], localFree, q.local)
      && IsList(link[..], xhead, q.xfree)
      && WellFormed(reserved, q)
    }

    function Cfg(): Config
      requires blockSize >= 1
    {
      PageConfig(reserved, blockSize)
    }

    constructor (reserved: nat, blockSize: nat, isZero: bool)
      requires blockSize >= 8
      ensures Valid() && fresh(link) && this.reserved == reserved && this.blockSize == blockSize
      ensures q == Lists([], [], [], 0, 0, multiset{}) && xowned && freeIsZero == isZero
    {
      this.reserved := reserved;
      this.blockSize := blockSize;
      link := new int[reserved];
      free, localFree, xhead, xowned := NULL, NULL, NULL, true;
      used, capacity, freeIsZero := 0, 0, isZero;
      q := Lists([], [], [], 0, 0, multiset{});
    }

    method ExtendFree()
      requires Valid() && free == NULL
      modifies this`free, this`capacity, this`q, link
      ensures Valid() && q == Grow(Cfg(), old(q))
    {
      var cap := capacity;
      if cap >= reserved {
        assert Grow(Cfg(), q).free == q.free;
        return;
      }
      ghost var grown := Grow(Cfg(), q);
      GrownEmpty(Cfg(), q);
      GrownWellFormed(reserved, Cfg(), q);
      var maxExtend := Cfg().batch;
      var extend := if reserved - cap < maxExtend then reserved - cap else maxExtend;
      var head := ThreadBlocks(link, cap, cap + extend, q, localFree, xhead);
      free := head;
      capacity := cap + extend;
      q := grown;
    }

    method Collect()
      requires Valid()
      modifies this`free, this`localFree, this`xhead, this`used, this`freeIsZero, this`q, link
      ensures Valid() && q == Collected(old(q))
      ensures freeIsZero == (old(freeIsZero) && NothingFreed(old(q)))
    {
      CollectedWellFormed(reserved, q);
      CollectedFree(q);
      LocalApart(reserved, q);
      var tf := xhead;
      if tf != NULL {
        xhead := NULL;
        freeIsZero := false;
        free, used := SpliceChain(link, tf, free, used, q, localFree);
      }
      var lf := localFree;
      if lf != NULL {
        freeIsZero := false;
        free := AppendLocal(link, lf, free, q.local, Reversed(q.xfree) + q.free);
        localFree := NULL;
      }
      q := Collected(q);
    }

    /// collect_partly up to its test of `used`.
    method TakePartly(head: nat)
      requires Valid() && head in q.xfree
      modifies this`free, this`localFree, this`used, this`q, link
      ensures Valid() && q == TakeBelow(old(q), head)
    {
      ghost var taken := TakeBelow(q, head);
      PartlyWellFormed(reserved, q, head);
      ListFrom(link[..], xhead, q.xfree, IndexOf(q.xfree, head));
      if link[head] != NULL {
        var local, count := MoveBelow(link, head, xhead, free, localFree, q);
        localFree := local;
        used := used - count;
        if free == NULL {
          free := localFree;
          localFree := NULL;
        }
      }
      q := taken;
    }

    /// `head` is the block this thread just pushed onto the stack.
    method CollectPartly(head: nat)
      requires Valid() && head in q.xfree
      modifies this`free, this`localFree, this`xhead, this`used, this`freeIsZero, this`q, link
      ensures Valid() && q == PartlyCollected(old(q), head)
      ensures freeIsZero == (old(freeIsZero) && TakeBelow(old(q), head).used != 1)
    {
      TakePartly(head);
      assert head in q.xfree;
      if used == 1 {
        Collect();
      }
    }

    /// Pop a known-non-null head of `free`.
    method PopHead() returns (b: nat)
      requires Valid() && free != NULL
      modifies this`free, this`used, this`q
      ensures Valid() && q == Pop(old(q)) && old(q).free != [] && b == old(q).free[0]
    {
      ListFrom(link[..], free, q.free, 0);
      b := free;
      free := link[b];
      used := used + 1;
      PopWellFormed(reserved, q);
      q := Pop(q);
    }

    /// Returns NULL when the page is full.
    method Alloc() returns (r: int)
      requires Valid()
      modifies this`free, this`localFree, this`xhead, this`used, this`capacity, this`freeIsZero, this`q, link
      ensures Valid()
      ensures var q1 := Refilled(Cfg(), old(q));
        if q1.free == [] then r == NULL && q == q1 else r == q1.free[0] && q == Pop(q1)
      ensures freeIsZero == (old(freeIsZero) && (old(q).free != [] || NothingFreed(old(q))))
    {
      if free == NULL {
        Collect();
        if free == NULL {
          ExtendFree();
          if free == NULL { return NULL; }
        }
      }
      r := PopHead();
    }

    method FreeLocal(b: nat)
      requires Valid() && b in q.live
      modifies this`localFree, this`used, this`q, link
      ensures Valid() && q == Push(old(q), b)
    {
      Apart(reserved, q, b);
      ListWrite(link[..], b, localFree, free, q.free);
      ListWrite(link[..], b, localFree, localFree, q.local);
      ListWrite(link[..], b, localFree, xhead, q.xfree);
      ghost var before := link[..];
      link[b] := localFree;
      assert link[..] == before[b := localFree];
      localFree := b;
      used := if used == 0 then 0 else used - 1;
      PushWellFormed(reserved, q, b);
      assert Push(q, b).local[1..] == q.local;
      q := Push(q, b);
    }

    /// The push of a foreign free; true iff it claimed an unowned page.
    method ThreadFreePush(b: nat) returns (claimed: bool)
      requires Valid() && b in q.live
      modifies this`xhead, this`xowned, this`q, link
      ensures Valid() && xowned && claimed == !old(xowned)
      ensures q == Pushed(old(q), b)
    {
      Apart(reserved, q, b);
      ListWrite(link[..], b, xhead, free, q.free);
      ListWrite(link[..], b, xhead, localFree, q.local);
      ListWrite(link[..], b, xhead, xhead, q.xfree);
      ghost var before := link[..];
      link[b] := xhead;
      assert link[..] == before[b := xhead];
      xhead := b;
      claimed := !xowned;
      xowned := true;
      PushedWellFormed(reserved, q, b);
      assert Pushed(q, b).xfree[1..] == q.xfree;
      q := Pushed(q, b);
    }

    method IsFull() returns (full: bool)
      requires Valid()
      modifies this`free, this`localFree, this`xhead, this`used, this`freeIsZero, this`q, link
      ensures Valid() && q == if old(q).free != [] then old(q) else Collected(old(q))
      ensures full <==> q.free == [] && q.capacity == reserved
      ensures freeIsZero == (old(freeIsZero) && (old(q).free != [] || NothingFreed(old(q))))
    {
      if free != NULL { return false; }
      Collect();
      if free != NULL { return false; }
      full := capacity >= reserved;
    }

    method ClaimOwnership() returns (claimed: bool)
      modifies this`xowned
      ensures xowned && claimed == !old(xowned)
    {
      if xowned { return false; }
      xowned := true;
      claimed := true;
    }

    /// Lets go only of an empty stack: a block pushed meanwhile makes it fail.
    method TryUnown() returns (ok: bool)
      requires Valid() && xowned
      modifies this`xowned
      ensures Valid() && ok == (q.xfree == []) && xowned == !ok
    {
      ok := xhead == NULL && xowned;
      if ok { xowned := false; }
    }
  }

  /// An allocation fails iff every block the page can ever hold is live.
  lemma FailsIffAllLive(c: Config, q: Lists)
    requires WellFormed(c.reserved, q) && c.batch >= 1
    ensures Refilled(c, q).free == [] <==> forall b: Block :: b < c.reserved ==> b in q.live
  {
    var r := Refilled(c, q);
    CollectedFree(q);
    assert |Reversed(q.xfree)| == |q.xfree| by { ReversedCount(q.xfree, 0); }
    if r.free == [] {
      assert q.free == [] && q.local == [] && q.xfree == [];
      assert BatchSize(c, Collected(q)) == 0;
      forall b: Block | b < c.reserved ensures b in q.live {
        Apart(c.reserved, q, b);
      }
    } else if q.capacity < c.reserved {
      Apart(c.reserved, q, q.capacity);
      assert q.capacity !in q.live;
    } else {
      var b := if q.free != [] then q.free[0] else if q.local != [] then q.local[0] else q.xfree[0];
      Apart(c.reserved, q, b);
      assert b in q.free || b in q.local || b in q.xfree;
      assert b < c.reserved && b !in q.live;
    }
  }
}
