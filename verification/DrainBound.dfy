/**
 How far a drain that always re-reads page 1 gets. The pending set holds ready rows, which leave it
 when they are synced, and unready rows, which stay; each page holds any 200 pending rows.
 */
module DrainBound {
  import opened Prelude

  const PAGE_SIZE := 200
  const MAX_ITERATIONS := 500

  /** Any page-full of the pending rows, or all of them when they are fewer. */
  predicate IsPage<K>(pending: set<K>, page: set<K>) {
    page <= pending && |page| == Min(PAGE_SIZE, |pending|)
  }

  /** A succession of pages, each read after the ready rows of the one before have left. */
  predicate IsDrain<K>(unready: set<K>, ready: set<K>, pages: seq<set<K>>)
    decreases |pages|
  {
    pages != [] ==> IsPage(unready + ready, pages[0]) && IsDrain(unready, ready - pages[0], pages[1..])
  }

  /** The ready rows that are left after the pages. */
  function Left<K>(ready: set<K>, pages: seq<set<K>>): set<K>
    decreases |pages|
  {
    if pages == [] then ready else Left(ready - pages[0], pages[1..])
  }

  /** How many ready rows a page holds at the very least, while there are enough. */
  function Progress(unready: nat): (n: nat)
    ensures unready < 200 ==> n == 200 - unready
    ensures unready >= 200 ==> n == 0
  {
    if unready < PAGE_SIZE then PAGE_SIZE - unready else 0
  }

  function AtMost(ready: int): nat {
    if ready < 0 then 0 else ready
  }

  /** Taking n pages is taking one and then the rest. */
  lemma OnePageThenTheRest(ready: int, n: nat, d: nat, after: int)
    requires n > 0 && after == AtMost(ready - d)
    ensures AtMost(after - (n - 1) * d) == AtMost(ready - n * d)
  {
    var m := (n - 1) * d;
    assert n * d == d + m;
    assert m >= 0;
  }

  lemma AtMostGrows(a: nat, b: int, c: int)
    requires a <= AtMost(b)
    ensures AtMost(a - c) <= AtMost(AtMost(b) - c)
  {
  }

  lemma PageTakesReady<K>(unready: set<K>, ready: set<K>, page: set<K>)
    requires unready !! ready && IsPage(unready + ready, page)
    ensures |ready - page| <= AtMost(|ready| - Progress(|unready|))
  {
    var taken, kept := ready * page, ready - page;
    assert ready == taken + kept && page == taken + unready * page;
    UnionSize(taken, kept);
    UnionSize(taken, unready * page);
    SubsetSize(unready * page, unready);
    UnionSize(unready, ready);
  }

  /** Whatever pages come up, n of them leave at most this many ready rows. */
  lemma {:induction false} DrainLeavesAtMost<K>(unready: set<K>, ready: set<K>, pages: seq<set<K>>)
    requires unready !! ready && IsDrain(unready, ready, pages)
    ensures |Left(ready, pages)| <= AtMost(|ready| - |pages| * Progress(|unready|))
    decreases |pages|
  {
    if pages != [] {
      PageTakesReady(unready, ready, pages[0]);
      DrainLeavesAtMost(unready, ready - pages[0], pages[1..]);
      AtMostGrows(|ready - pages[0]|, |ready| - Progress(|unready|), (|pages| - 1) * Progress(|unready|));
      OnePageThenTheRest(|ready|, |pages|, Progress(|unready|), AtMost(|ready| - Progress(|unready|)));
    }
  }

  /** A set has a part of every smaller size. */
  lemma {:induction false} PartOf<K>(s: set<K>, n: nat) returns (part: set<K>)
    requires n <= |s|
    ensures part <= s && |part| == n
  {
    part := {};
    if n > 0 {
      var x :| x in s;
      var rest := PartOf(s - {x}, n - 1);
      part := rest + {x};
    }
  }

  /** The page that holds as many unready rows as it can. */
  lemma WorstPage<K>(unready: set<K>, ready: set<K>) returns (page: set<K>)
    requires unready !! ready
    ensures IsPage(unready + ready, page)
    ensures |ready - page| == AtMost(|ready| - Progress(|unready|))
  {
    UnionSize(unready, ready);
    var first := PartOf(unready, Min(PAGE_SIZE, |unready|));
    var second := PartOf(ready, Min(PAGE_SIZE, |unready| + |ready|) - |first|);
    page := first + second;
    UnionSize(first, second);
    assert ready == second + (ready - page);
    UnionSize(second, ready - page);
  }

  /** Some succession of n pages leaves exactly that many. */
  lemma {:induction false} WorstDrain<K>(unready: set<K>, ready: set<K>, n: nat) returns (pages: seq<set<K>>)
    requires unready !! ready
    ensures |pages| == n && IsDrain(unready, ready, pages)
    ensures |Left(ready, pages)| == AtMost(|ready| - n * Progress(|unready|))
    decreases n
  {
    pages := [];
    if n > 0 {
      var page := WorstPage(unready, ready);
      var rest := WorstDrain(unready, ready - page, n - 1);
      pages := [page] + rest;
      assert pages[1..] == rest;
      OnePageThenTheRest(|ready|, n, Progress(|unready|), |ready - page|);
    }
  }

  /** Every drain of 500 pages leaves no ready row. */
  ghost predicate AlwaysDrains<K(!new)>(unready: set<K>, ready: set<K>) {
    forall pages: seq<set<K>> :: |pages| == 500 && IsDrain(unready, ready, pages) ==> Left(ready, pages) == {}
  }

  /**
   The drain bound, exactly: 500 pages of 200 rows sync every ready row, whichever pending rows each
   page holds, if and only if there are at most 500 * (200 - u) of them, where u < 200 is the number of
   unready rows; with 200 unready rows only if there is no ready row at all.
   */
  lemma DrainsIffFewEnough<K(!new)>(unready: set<K>, ready: set<K>)
    requires unready !! ready
    ensures AlwaysDrains(unready, ready)
       <==> if |unready| < 200 then |ready| <= 500 * (200 - |unready|) else ready == {}
  {
    if |ready| <= 500 * Progress(|unready|) {
      forall pages: seq<set<K>> | |pages| == 500 && IsDrain(unready, ready, pages)
        ensures Left(ready, pages) == {}
      {
        DrainLeavesAtMost(unready, ready, pages);
      }
    } else {
      var pages := WorstDrain(unready, ready, 500);
      assert Left(ready, pages) != {};
    }
  }

  /** When unready rows can fill a page, some drain of 500 pages syncs nothing at all. */
  lemma FullPagesOfUnreadyStall<K>(unready: set<K>, ready: set<K>) returns (pages: seq<set<K>>)
    requires unready !! ready && |unready| >= 200
    ensures |pages| == 500 && IsDrain(unready, ready, pages) && Left(ready, pages) == ready
  {
    pages := WorstDrain(unready, ready, 500);
    LeftIsPart(ready, pages);
    assert ready == Left(ready, pages) + (ready - Left(ready, pages));
    UnionSize(Left(ready, pages), ready - Left(ready, pages));
  }

  /** Without unready rows every page takes 200 ready rows, or all that are left. */
  lemma {:induction false} UnhinderedDrain<K>(ready: set<K>, pages: seq<set<K>>)
    requires IsDrain({}, ready, pages)
    ensures |Left(ready, pages)| == AtMost(|ready| - 200 * |pages|)
    decreases |pages|
  {
    if pages != [] {
      assert {} + ready == ready == pages[0] + (ready - pages[0]);
      UnionSize(pages[0], ready - pages[0]);
      UnhinderedDrain(ready - pages[0], pages[1..]);
    }
  }

  lemma {:induction false} LeftIsPart<K>(ready: set<K>, pages: seq<set<K>>)
    ensures Left(ready, pages) <= ready
    decreases |pages|
  {
    if pages != [] {
      LeftIsPart(ready - pages[0], pages[1..]);
    }
  }

  /** One more page at the end of a drain. */
  lemma {:induction false} DrainGrows<K>(unready: set<K>, ready: set<K>, pages: seq<set<K>>, page: set<K>)
    requires IsDrain(unready, ready, pages) && IsPage(unready + Left(ready, pages), page)
    ensures IsDrain(unready, ready, pages + [page])
    ensures Left(ready, pages + [page]) == Left(ready, pages) - page
    decreases |pages|
  {
    if pages == [] {
      assert [page][1..] == [];
      assert pages + [page] == [page];
    } else {
      assert (pages + [page])[1..] == pages[1..] + [page];
      DrainGrows(unready, ready - pages[0], pages[1..], page);
    }
  }
}
