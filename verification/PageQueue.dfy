/// The per-bin queue of pages: an intrusive doubly linked list with a count.

module PageQueue {

  /// The link cells inside a page header.
  class PageLinks {
    var next: PageLinks?
    var prev: PageLinks?

    constructor ()
      ensures next == null && prev == null
    {
      next, prev := null, null;
    }
  }

  predicate Distinct<T(==)>(s: seq<T>) {
    forall i, j :: 0 <= i < j < |s| ==> s[i] != s[j]
  }

  function Without<T>(s: seq<T>, i: nat): seq<T>
    requires i < |s|
  {
    s[..i] + s[i + 1..]
  }

  /// Neighbour `i` in the queue; null past either end.
  function At(pages: seq<PageLinks>, i: int): PageLinks? {
    if 0 <= i < |pages| then pages[i] else null
  }

  class PageQueue {
    var first: PageLinks?
    var last: PageLinks?
    var count: nat
    ghost var pages: seq<PageLinks>     // front first

    ghost predicate Valid()
      reads this, pages
    {
      && count == |pages|
      && Distinct(pages)
      && first == At(pages, 0)
      && last == At(pages, |pages| - 1)
      && (forall i :: 0 <= i < |pages| ==> LinkedAt(pages, i))
    }

    static ghost predicate LinkedAt(pages: seq<PageLinks>, i: nat)
      requires i < |pages|
      reads pages[i]
    {
      pages[i].prev == At(pages, i - 1) && pages[i].next == At(pages, i + 1)
    }

    constructor ()
      ensures Valid() && pages == []
    {
      first, last, count, pages := null, null, 0, [];
    }

    method PushFront(page: PageLinks)
      requires Valid() && page !in pages
      modifies this, page, pages
      ensures Valid() && pages == [page] + old(pages)
    {
      var oldFirst := first;
      page.prev := null;
      page.next := oldFirst;
      if oldFirst == null {
        last := page;
      } else {
        oldFirst.prev := page;
      }
      first := page;
      count := count + 1;
      ghost var was := pages;
      pages := [page] + was;
      assert forall i :: 0 < i < |pages| ==> pages[i] == was[i - 1];
      forall i | 0 <= i < |pages| ensures LinkedAt(pages, i) {
        assert i > 0 ==> old(LinkedAt(was, i - 1));
      }
    }

    /// The page leaves, its links are cleared, and the others keep their order.
    method Remove(page: PageLinks, ghost at: nat)
      requires Valid() && at < |pages| && pages[at] == page
      modifies this, pages
      ensures Valid() && pages == Without(old(pages), at)
      ensures page.next == null && page.prev == null
    {
      ghost var was := pages;
      assert LinkedAt(was, at);
      var prev := page.prev;
      var next := page.next;
      assert prev == At(was, at - 1) && next == At(was, at + 1);
      if prev == null {
        first := next;
      } else {
        prev.next := next;
      }
      if next == null {
        last := prev;
      } else {
        next.prev := prev;
      }
      page.next := null;
      page.prev := null;
      count := count - 1;
      pages := Without(was, at);
      forall i | 0 <= i < |pages| ensures LinkedAt(pages, i) {
        if i < at {
          assert old(LinkedAt(was, i));
        } else {
          assert old(LinkedAt(was, i + 1));
        }
      }
    }

    /// The walk from `first` along `next` meets every page once, in order.
    method Walk() returns (seen: seq<PageLinks>)
      requires Valid()
      ensures seen == pages
    {
      seen := [];
      var cur := first;
      while cur != null
        invariant |seen| <= |pages| && seen == pages[..|seen|]
        invariant cur == At(pages, |seen|)
        decreases |pages| - |seen|
      {
        assert LinkedAt(pages, |seen|);
        seen := seen + [cur];
        cur := cur.next;
      }
    }
  }
}
