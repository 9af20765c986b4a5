/**
 The drain with the order in which pages are read: the rows seen last come first. Which ready rows are
 ever synced then depends only on how many unready rows stand before them.
 */
module DrainOrder {
  import opened Prelude
  import opened DrainBound

  function SeenAt<K>(seen: map<K, int>, k: K): int {
    if k in seen then seen[k] else 0
  }

  /** A page of the rows that were seen last; rows seen at the same time come in any order. */
  predicate IsNewest<K>(pending: set<K>, page: set<K>, seen: map<K, int>) {
    IsPage(pending, page) && forall k, l :: k in page && l in pending - page ==> SeenAt(seen, l) <= SeenAt(seen, k)
  }

  /** A drain whose pages come in that order. */
  predicate IsOrderedDrain<K>(unready: set<K>, ready: set<K>, pages: seq<set<K>>, seen: map<K, int>)
    decreases |pages|
  {
    pages != [] ==>
      IsNewest(unready + ready, pages[0], seen) && IsOrderedDrain(unready, ready - pages[0], pages[1..], seen)
  }

  /** The unready rows that may come before row k. */
  function Before<K>(unready: set<K>, seen: map<K, int>, k: K): set<K> {
    set u | u in unready && SeenAt(seen, k) <= SeenAt(seen, u)
  }

  /** Every ready row has at most m unready rows before it. */
  ghost predicate AtMostBefore<K>(unready: set<K>, ready: set<K>, seen: map<K, int>, m: nat) {
    forall k :: k in ready ==> |Before(unready, seen, k)| <= m
  }

  // ---------------------------------------------------------------- enough room for the ready rows

  lemma PageSplits<K>(unready: set<K>, ready: set<K>, page: set<K>)
    requires unready !! ready && page <= unready + ready
    ensures |page| == |ready * page| + |unready * page| && |ready| == |ready * page| + |ready - page|
  {
    assert page == ready * page + unready * page && ready == ready * page + (ready - page);
    UnionSize(ready * page, unready * page);
    UnionSize(ready * page, ready - page);
  }

  /** A page that leaves a row out is full. */
  lemma PageIsFull<K>(pending: set<K>, page: set<K>, left: K)
    requires IsPage(pending, page) && left in pending - page
    ensures |page| == PAGE_SIZE
  {
    assert pending == page + (pending - page);
    UnionSize(page, pending - page);
  }

  /** A page that leaves a ready row out holds only unready rows that stand before that row. */
  lemma NewestTakesReady<K>(unready: set<K>, ready: set<K>, page: set<K>, seen: map<K, int>, m: nat)
    requires unready !! ready && IsNewest(unready + ready, page, seen)
    requires m < PAGE_SIZE && AtMostBefore(unready, ready, seen, m)
    ensures |ready - page| <= AtMost(|ready| - (PAGE_SIZE - m))
  {
    if ready - page != {} {
      var left :| left in ready - page;
      PageIsFull(unready + ready, page, left);
      PageSplits(unready, ready, page);
      assert unready * page <= Before(unready, seen, left);
      SubsetSize(unready * page, Before(unready, seen, left));
    }
  }

  /** Each page takes at least that many ready rows. */
  lemma {:induction false} OrderedDrainLeavesAtMost<K>(unready: set<K>, ready: set<K>, pages: seq<set<K>>,
                                                       seen: map<K, int>, m: nat)
    requires unready !! ready && IsOrderedDrain(unready, ready, pages, seen)
    requires m < 200 && AtMostBefore(unready, ready, seen, m)
    ensures |Left(ready, pages)| <= AtMost(|ready| - |pages| * (200 - m))
    decreases |pages|
  {
    if pages != [] {
      NewestTakesReady(unready, ready, pages[0], seen, m);
      OrderedDrainLeavesAtMost(unready, ready - pages[0], pages[1..], seen, m);
      AtMostGrows(|ready - pages[0]|, |ready| - (200 - m), (|pages| - 1) * (200 - m));
      OnePageThenTheRest(|ready|, |pages|, 200 - m, AtMost(|ready| - (200 - m)));
    }
  }

  // ---------------------------------------------------------------- no room for a ready row

  /** The unready rows that come before row k in every order. */
  function StrictlyBefore<K>(unready: set<K>, seen: map<K, int>, k: K): set<K> {
    set u | u in unready && SeenAt(seen, k) < SeenAt(seen, u)
  }

  /** A ready row with a page-full of unready rows strictly before it is never reached. */
  lemma {:induction false} NeverReached<K>(unready: set<K>, ready: set<K>, pages: seq<set<K>>, seen: map<K, int>, k: K)
    requires IsOrderedDrain(unready, ready, pages, seen) && k in ready
    requires |StrictlyBefore(unready, seen, k)| >= 200
    ensures k in Left(ready, pages)
    decreases |pages|
  {
    if pages != [] {
      if k in pages[0] {
        assert StrictlyBefore(unready, seen, k) <= pages[0] - {k};
        SubsetSize(StrictlyBefore(unready, seen, k), pages[0] - {k});
        assert false;
      }
      NeverReached(unready, ready - pages[0], pages[1..], seen, k);
    }
  }

  lemma {:induction false} SeenLast<K>(s: set<K>, seen: map<K, int>) returns (last: K)
    requires s != {}
    ensures last in s && forall k :: k in s ==> SeenAt(seen, k) <= SeenAt(seen, last)
  {
    last :| last in s;
    if s != {last} {
      var other := SeenLast(s - {last}, seen);
      last := if SeenAt(seen, last) < SeenAt(seen, other) then other else last;
    }
  }

  /** Any number of rows that come first. */
  lemma {:induction false} FirstOf<K>(s: set<K>, n: nat, seen: map<K, int>) returns (first: set<K>)
    requires n <= |s|
    ensures first <= s && |first| == n
    ensures forall k, l :: k in first && l in s - first ==> SeenAt(seen, l) <= SeenAt(seen, k)
    decreases n
  {
    first := {};
    if n > 0 {
      var last := SeenLast(s, seen);
      var rest := FirstOf(s - {last}, n - 1, seen);
      first := rest + {last};
    }
  }

  /** A ready row with a page-full of unready rows before it can be left out of a page. */
  lemma PageWithout<K>(unready: set<K>, ready: set<K>, seen: map<K, int>, k: K) returns (page: set<K>)
    requires unready !! ready && k in ready && |Before(unready, seen, k)| >= PAGE_SIZE
    ensures IsNewest(unready + ready, page, seen) && k !in page
  {
    var pending := unready + ready;
    var before := Before(unready, seen, k);
    SubsetSize(before, pending - {k});
    page := FirstOf(pending - {k}, PAGE_SIZE, seen);
    SubsetSize(page, pending);
    forall p | p in page
      ensures SeenAt(seen, k) <= SeenAt(seen, p)
    {
      if SeenAt(seen, p) < SeenAt(seen, k) {
        assert before <= page - {p};
        SubsetSize(before, page - {p});
        assert false;
      }
    }
  }

  /** So it can be left out of any number of pages. */
  lemma {:induction false} DrainWithout<K>(unready: set<K>, ready: set<K>, seen: map<K, int>, k: K, n: nat)
    returns (pages: seq<set<K>>)
    requires unready !! ready && k in ready && |Before(unready, seen, k)| >= PAGE_SIZE
    ensures |pages| == n && IsOrderedDrain(unready, ready, pages, seen) && k in Left(ready, pages)
    decreases n
  {
    pages := [];
    if n > 0 {
      var page := PageWithout(unready, ready, seen, k);
      var rest := DrainWithout(unready, ready - page, seen, k, n - 1);
      pages := [page] + rest;
      assert pages[1..] == rest;
    }
  }

  /** Every ordered drain of n pages leaves no ready row. */
  ghost predicate AlwaysDrainsIn<K(!new)>(unready: set<K>, ready: set<K>, seen: map<K, int>, n: nat) {
    forall pages: seq<set<K>> :: |pages| == n && IsOrderedDrain(unready, ready, pages, seen) ==>
                                   Left(ready, pages) == {}
  }

  /**
   The ordered drain, exactly: some number of pages is sure to sync every ready row if and only if
   each has fewer than 200 unready rows before it; then one page for each ready row is enough.
   */
  lemma OrderedDrainsIff<K(!new)>(unready: set<K>, ready: set<K>, seen: map<K, int>)
    requires unready !! ready
    ensures (exists n: nat :: AlwaysDrainsIn(unready, ready, seen, n))
       <==> AtMostBefore(unready, ready, seen, 199)
    ensures AtMostBefore(unready, ready, seen, 199) ==> AlwaysDrainsIn(unready, ready, seen, |ready|)
  {
    if AtMostBefore(unready, ready, seen, 199) {
      forall pages: seq<set<K>> | |pages| == |ready| && IsOrderedDrain(unready, ready, pages, seen)
        ensures Left(ready, pages) == {}
      {
        OrderedDrainLeavesAtMost(unready, ready, pages, seen, 199);
      }
      assert AlwaysDrainsIn(unready, ready, seen, |ready|);
    } else {
      var k :| k in ready && |Before(unready, seen, k)| >= PAGE_SIZE;
      forall n: nat
        ensures !AlwaysDrainsIn(unready, ready, seen, n)
      {
        var pages := DrainWithout(unready, ready, seen, k, n);
        assert Left(ready, pages) != {};
      }
    }
  }

  /** What 500 pages, or fewer that leave nothing pending, do to the ready rows. */
  ghost predicate IsOrderedResult<K>(unready: set<K>, ready: set<K>, left: set<K>, seen: map<K, int>) {
    && (forall m: nat ::
          m < 200 && AtMostBefore(unready, ready, seen, m) && |ready| <= 500 * (200 - m) ==> left == {})
    && (forall k :: k in ready && |StrictlyBefore(unready, seen, k)| >= 200 ==> k in left)
  }

  lemma OrderedResult<K>(unready: set<K>, ready: set<K>, pages: seq<set<K>>, seen: map<K, int>)
    requires unready !! ready && IsOrderedDrain(unready, ready, pages, seen)
    requires |pages| == 500 || Left(ready, pages) == {}
    ensures IsOrderedResult(unready, ready, Left(ready, pages), seen)
  {
    forall m: nat | m < 200 && AtMostBefore(unready, ready, seen, m) && |ready| <= 500 * (200 - m)
      ensures Left(ready, pages) == {}
    {
      OrderedDrainLeavesAtMost(unready, ready, pages, seen, m);
    }
    forall k | k in ready && |StrictlyBefore(unready, seen, k)| >= 200
      ensures k in Left(ready, pages)
    {
      NeverReached(unready, ready, pages, seen, k);
    }
  }

  /** One more page at the end of an ordered drain. */
  lemma {:induction false} OrderedDrainGrows<K>(unready: set<K>, ready: set<K>, pages: seq<set<K>>, page: set<K>,
                                                seen: map<K, int>)
    requires IsOrderedDrain(unready, ready, pages, seen) && IsNewest(unready + Left(ready, pages), page, seen)
    ensures IsOrderedDrain(unready, ready, pages + [page], seen)
    decreases |pages|
  {
    if pages == [] {
      assert [page][1..] == [];
      assert pages + [page] == [page];
    } else {
      assert (pages + [page])[1..] == pages[1..] + [page];
      OrderedDrainGrows(unready, ready - pages[0], pages[1..], page, seen);
    }
  }
}
