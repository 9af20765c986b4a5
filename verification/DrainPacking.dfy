/**
 How many ordered pages a drain needs, exactly. The ready rows are packed onto pages in the order in which
 they are read; each page also holds the unready rows that stand before its last ready row, every time.
 */
module DrainPacking {
  import opened Prelude
  import opened DrainBound
  import opened DrainOrder

  /** The ready rows, those seen last first. */
  ghost predicate IsListing<K>(ready: set<K>, ks: seq<K>, seen: map<K, int>) {
    && Distinct(ks) && (forall k :: k in ks ==> k in ready) && (forall k :: k in ready ==> k in ks)
    && forall i, j :: 0 <= i < j < |ks| ==> SeenAt(seen, ks[j]) <= SeenAt(seen, ks[i])
  }

  /** For each ready row, how many unready rows may stand before it. */
  function Ahead<K>(unready: set<K>, seen: map<K, int>, ks: seq<K>): seq<nat> {
    seq(|ks|, i requires 0 <= i < |ks| => |Before(unready, seen, ks[i])|)
  }

  /** How many ready rows, from position i on, fit on a page with the unready rows before them. */
  function FitsFrom(ahead: seq<nat>, i: nat): (t: nat)
    requires i <= |ahead|
    ensures i <= t <= |ahead| && (forall j :: i <= j < t ==> ahead[j] + j < 200)
    ensures t < |ahead| ==> ahead[t] + t >= 200
    decreases |ahead| - i
  {
    if i < |ahead| && ahead[i] + i < PAGE_SIZE then FitsFrom(ahead, i + 1) else i
  }

  function Fits(ahead: seq<nat>): nat {
    FitsFrom(ahead, 0)
  }

  /** Packed page after page, the ready rows fit on n pages. */
  predicate AreEnough(ahead: seq<nat>, n: nat)
    decreases n
  {
    ahead == [] || (n > 0 && AreEnough(ahead[Fits(ahead)..], n - 1))
  }

  predicate IsAscending(ahead: seq<nat>) {
    forall i, j :: 0 <= i < j < |ahead| ==> ahead[i] <= ahead[j]
  }

  lemma FitsOfRest(ahead: seq<nat>, s: nat)
    requires s <= |ahead|
    ensures Fits(ahead) <= s + Fits(ahead[s..])
  {
    var t := Fits(ahead[s..]);
    assert s + t < |ahead| ==> ahead[s..][t] == ahead[s + t];
  }

  /** Rows that were taken too early are not needed later. */
  lemma {:induction false} EnoughForRest(ahead: seq<nat>, s: nat, n: nat)
    requires s <= |ahead| && AreEnough(ahead, n)
    ensures AreEnough(ahead[s..], n)
    decreases n
  {
    var rest := ahead[s..];
    if rest != [] {
      var f, t := Fits(ahead), Fits(rest);
      FitsOfRest(ahead, s);
      EnoughForRest(ahead[f..], s + t - f, n - 1);
      assert ahead[f..][s + t - f..] == rest[t..];
    }
  }

  // ---------------------------------------------------------------- listings

  function Elements<K>(ks: seq<K>): set<K> {
    set k | k in ks
  }

  lemma {:induction false} DistinctElements<K>(ks: seq<K>)
    requires Distinct(ks)
    ensures |Elements(ks)| == |ks|
  {
    if ks != [] {
      var n := |ks| - 1;
      DistinctElements(ks[..n]);
      assert Elements(ks) == Elements(ks[..n]) + {ks[n]};
    }
  }

  lemma FrontSize<K>(s: set<K>, ks: seq<K>, seen: map<K, int>, n: nat)
    requires IsListing(s, ks, seen) && n <= |ks|
    ensures |Elements(ks[..n])| == n
  {
    DistinctElements(ks[..n]);
  }

  lemma ListingSize<K>(s: set<K>, ks: seq<K>, seen: map<K, int>)
    requires IsListing(s, ks, seen)
    ensures |ks| == |s|
  {
    DistinctElements(ks);
    assert Elements(ks) == s;
  }

  lemma NoneSeenLater<K>(s: set<K>, ks: seq<K>, ls: seq<K>, seen: map<K, int>, i: nat)
    requires IsListing(s, ks, seen) && IsListing(s, ls, seen) && i < |ks| && i < |ls|
    ensures SeenAt(seen, ks[i]) <= SeenAt(seen, ls[i])
  {
    if SeenAt(seen, ls[i]) < SeenAt(seen, ks[i]) {
      forall k | k in Elements(ks[..i + 1])
        ensures k in Elements(ls[..i])
      {
        var a :| 0 <= a < i + 1 && ks[a] == k;
        assert SeenAt(seen, ks[i]) <= SeenAt(seen, k) && k in s;
        var b :| 0 <= b < |ls| && ls[b] == k;
        assert b < i;
        assert ls[..i][b] == k;
      }
      SubsetSize(Elements(ks[..i + 1]), Elements(ls[..i]));
      FrontSize(s, ks, seen, i + 1);
      FrontSize(s, ls, seen, i);
    }
  }

  /** Two listings of the same rows agree on when their rows were seen. */
  lemma ListingsAgree<K>(unready: set<K>, s: set<K>, ks: seq<K>, ls: seq<K>, seen: map<K, int>)
    requires IsListing(s, ks, seen) && IsListing(s, ls, seen)
    ensures Ahead(unready, seen, ks) == Ahead(unready, seen, ls)
  {
    ListingSize(s, ks, seen);
    ListingSize(s, ls, seen);
    forall i | 0 <= i < |ks|
      ensures Before(unready, seen, ks[i]) == Before(unready, seen, ls[i])
    {
      NoneSeenLater(s, ks, ls, seen, i);
      NoneSeenLater(s, ls, ks, seen, i);
    }
  }

  lemma {:induction false} Listed<K>(s: set<K>, seen: map<K, int>) returns (ks: seq<K>)
    ensures IsListing(s, ks, seen)
    decreases s
  {
    ks := [];
    if s != {} {
      var last := SeenLast(s, seen);
      var rest := Listed(s - {last}, seen);
      ks := [last] + rest;
      forall k
        ensures k in ks <==> k in s
      {
        assert k in ks <==> k == last || k in rest;
      }
    }
  }

  lemma AheadAscends<K>(unready: set<K>, ready: set<K>, ks: seq<K>, seen: map<K, int>)
    requires IsListing(ready, ks, seen)
    ensures IsAscending(Ahead(unready, seen, ks))
  {
    forall i, j | 0 <= i < j < |ks|
      ensures |Before(unready, seen, ks[i])| <= |Before(unready, seen, ks[j])|
    {
      SubsetSize(Before(unready, seen, ks[i]), Before(unready, seen, ks[j]));
    }
  }

  // ---------------------------------------------------------------- one page

  lemma ListingInTwo<K>(a: set<K>, b: set<K>, ks: seq<K>, ls: seq<K>, seen: map<K, int>)
    requires a !! b && IsListing(a, ks, seen) && IsListing(b, ls, seen)
    requires forall k, l :: k in a && l in b ==> SeenAt(seen, l) <= SeenAt(seen, k)
    ensures IsListing(a + b, ks + ls, seen)
  {
    var all := ks + ls;
    forall i | 0 <= i < |all|
      ensures if i < |ks| then all[i] in a && all[i] == ks[i] else all[i] in b && all[i] == ls[i - |ks|]
    {
      assert i < |ks| ==> ks[i] in ks;
      assert i >= |ks| ==> ls[i - |ks|] in ls;
    }
  }

  lemma AheadInTwo<K>(unready: set<K>, seen: map<K, int>, ks: seq<K>, ls: seq<K>)
    ensures Ahead(unready, seen, ks + ls)[..|ks|] == Ahead(unready, seen, ks)
    ensures Ahead(unready, seen, ks + ls)[|ks|..] == Ahead(unready, seen, ls)
  {
  }

  /** What a page takes is a front of the listing, and what it leaves is the rest. */
  lemma PageSplitsListing<K>(unready: set<K>, ready: set<K>, page: set<K>, seen: map<K, int>, ks: seq<K>)
    returns (taken: seq<K>, rest: seq<K>)
    requires unready !! ready && IsNewest(unready + ready, page, seen) && IsListing(ready, ks, seen)
    ensures IsListing(ready * page, taken, seen) && IsListing(ready - page, rest, seen)
    ensures |taken| == |ready * page| <= |ks|
    ensures Ahead(unready, seen, taken) == Ahead(unready, seen, ks)[..|taken|]
    ensures Ahead(unready, seen, rest) == Ahead(unready, seen, ks)[|taken|..]
  {
    taken := Listed(ready * page, seen);
    rest := Listed(ready - page, seen);
    ListingInTwo(ready * page, ready - page, taken, rest, seen);
    assert ready * page + (ready - page) == ready;
    ListingsAgree(unready, ready, ks, taken + rest, seen);
    ListingSize(ready * page, taken, seen);
    AheadInTwo(unready, seen, taken, rest);
  }

  /** A page takes at least the ready rows that fit. */
  lemma PageTakesWhatFits<K>(unready: set<K>, ready: set<K>, page: set<K>, seen: map<K, int>, ks: seq<K>)
    requires unready !! ready && IsNewest(unready + ready, page, seen) && IsListing(ready, ks, seen)
    ensures Fits(Ahead(unready, seen, ks)) <= |ready * page|
  {
    var taken, rest := PageSplitsListing(unready, ready, page, seen, ks);
    if rest != [] {
      var k := rest[0];
      assert k in rest && k in ready - page;
      PageIsFull(unready + ready, page, k);
      PageSplits(unready, ready, page);
      assert unready * page <= Before(unready, seen, k);
      SubsetSize(unready * page, Before(unready, seen, k));
      assert Ahead(unready, seen, ks)[|taken|] == Ahead(unready, seen, rest)[0];
    }
    ListingSize(ready, ks, seen);
    ListingSize(ready - page, rest, seen);
    PageSplits(unready, ready, page);
  }

  /** The order in which unready rows come first among rows seen at the same time. */
  function UnreadyFirst<K>(unready: set<K>, ready: set<K>, seen: map<K, int>): map<K, int> {
    map k | k in unready + ready :: 2 * SeenAt(seen, k) + if k in unready then 1 else 0
  }

  /** A page in that order holds the unready rows before each of its ready rows. */
  lemma HoldsAllBefore<K>(unready: set<K>, ready: set<K>, page: set<K>, seen: map<K, int>, k: K)
    requires unready !! ready && IsNewest(unready + ready, page, UnreadyFirst(unready, ready, seen))
    requires k in ready * page
    ensures Before(unready, seen, k) <= unready * page
  {
    var first := UnreadyFirst(unready, ready, seen);
    forall u | u in Before(unready, seen, k)
      ensures u in page
    {
      assert SeenAt(first, u) == 2 * SeenAt(seen, u) + 1 && SeenAt(first, k) == 2 * SeenAt(seen, k);
    }
  }

  lemma NewestInBoth<K>(unready: set<K>, ready: set<K>, page: set<K>, seen: map<K, int>)
    requires unready !! ready && IsNewest(unready + ready, page, UnreadyFirst(unready, ready, seen))
    ensures IsNewest(unready + ready, page, seen)
  {
    var first := UnreadyFirst(unready, ready, seen);
    forall k, l | k in page && l in unready + ready - page
      ensures SeenAt(seen, l) <= SeenAt(seen, k)
    {
      assert SeenAt(first, l) <= SeenAt(first, k);
      assert SeenAt(first, l) >= 2 * SeenAt(seen, l) && SeenAt(first, k) <= 2 * SeenAt(seen, k) + 1;
    }
  }

  /** Such a page takes no ready row that does not fit. */
  lemma TakesOnlyWhatFits<K>(unready: set<K>, ready: set<K>, page: set<K>, seen: map<K, int>, ks: seq<K>)
    requires unready !! ready && IsNewest(unready + ready, page, UnreadyFirst(unready, ready, seen))
    requires IsListing(ready, ks, seen)
    ensures |ready * page| <= Fits(Ahead(unready, seen, ks))
  {
    NewestInBoth(unready, ready, page, seen);
    var taken, rest := PageSplitsListing(unready, ready, page, seen, ks);
    var t := |taken|;
    if t > 0 {
      LastTakenFits(unready, ready, page, seen, taken[t - 1]);
      assert Ahead(unready, seen, ks)[t - 1] == Ahead(unready, seen, taken)[t - 1];
      AheadAscends(unready, ready, ks, seen);
      FitsAtLeast(Ahead(unready, seen, ks), t);
    }
  }

  lemma LastTakenFits<K>(unready: set<K>, ready: set<K>, page: set<K>, seen: map<K, int>, k: K)
    requires unready !! ready && IsNewest(unready + ready, page, UnreadyFirst(unready, ready, seen))
    requires k in ready * page
    ensures |Before(unready, seen, k)| + |ready * page| <= PAGE_SIZE
  {
    HoldsAllBefore(unready, ready, page, seen, k);
    SubsetSize(Before(unready, seen, k), unready * page);
    PageSplits(unready, ready, page);
  }

  lemma FitsAtLeast(ahead: seq<nat>, t: nat)
    requires IsAscending(ahead) && 0 < t <= |ahead| && ahead[t - 1] + (t - 1) < PAGE_SIZE
    ensures t <= Fits(ahead)
  {
    assert forall j :: 0 <= j < t ==> ahead[j] <= ahead[t - 1];
  }

  /** So some page takes exactly the ready rows that fit. */
  lemma TightPage<K>(unready: set<K>, ready: set<K>, seen: map<K, int>, ks: seq<K>) returns (page: set<K>)
    requires unready !! ready && IsListing(ready, ks, seen)
    ensures IsNewest(unready + ready, page, seen) && |ready * page| == Fits(Ahead(unready, seen, ks))
  {
    var pending := unready + ready;
    page := FirstOf(pending, Min(PAGE_SIZE, |pending|), UnreadyFirst(unready, ready, seen));
    NewestInBoth(unready, ready, page, seen);
    PageTakesWhatFits(unready, ready, page, seen, ks);
    TakesOnlyWhatFits(unready, ready, page, seen, ks);
  }

  // ---------------------------------------------------------------- many pages

  lemma EnoughAfterPage(ahead: seq<nat>, taken: nat, n: nat)
    requires n > 0 && AreEnough(ahead, n) && Fits(ahead) <= taken <= |ahead|
    ensures AreEnough(ahead[taken..], n - 1)
  {
    if ahead != [] {
      EnoughForRest(ahead[Fits(ahead)..], taken - Fits(ahead), n - 1);
      assert ahead[Fits(ahead)..][taken - Fits(ahead)..] == ahead[taken..];
    }
  }

  lemma {:induction false} EnoughPagesDrain<K>(unready: set<K>, ready: set<K>, pages: seq<set<K>>, seen: map<K, int>,
                                               ks: seq<K>)
    requires unready !! ready && IsOrderedDrain(unready, ready, pages, seen) && IsListing(ready, ks, seen)
    requires AreEnough(Ahead(unready, seen, ks), |pages|)
    ensures Left(ready, pages) == {}
    decreases |pages|
  {
    var ahead := Ahead(unready, seen, ks);
    if pages == [] {
      ListingSize(ready, ks, seen);
    } else {
      var taken, rest := PageSplitsListing(unready, ready, pages[0], seen, ks);
      PageTakesWhatFits(unready, ready, pages[0], seen, ks);
      EnoughAfterPage(ahead, |taken|, |pages|);
      EnoughPagesDrain(unready, ready - pages[0], pages[1..], seen, rest);
    }
  }

  lemma {:induction false} TooFewPagesLeave<K>(unready: set<K>, ready: set<K>, seen: map<K, int>, ks: seq<K>, n: nat)
    returns (pages: seq<set<K>>)
    requires unready !! ready && IsListing(ready, ks, seen) && !AreEnough(Ahead(unready, seen, ks), n)
    ensures |pages| == n && IsOrderedDrain(unready, ready, pages, seen) && Left(ready, pages) != {}
    decreases n
  {
    pages := [];
    if n == 0 {
      assert ks[0] in ready;
    } else {
      var page := TightPage(unready, ready, seen, ks);
      var taken, rest := PageSplitsListing(unready, ready, page, seen, ks);
      var others := TooFewPagesLeave(unready, ready - page, seen, rest, n - 1);
      pages := [page] + others;
      assert pages[1..] == others;
    }
  }

  /**
   The ordered drain of n pages, exactly: it is sure to sync every ready row if and only if the ready
   rows, packed in the order in which they were seen with the unready rows before them, fit on n pages.
   */
  lemma OrderedPagesDrainIff<K(!new)>(unready: set<K>, ready: set<K>, seen: map<K, int>, ks: seq<K>, n: nat)
    requires unready !! ready && IsListing(ready, ks, seen)
    ensures AlwaysDrainsIn(unready, ready, seen, n) <==> AreEnough(Ahead(unready, seen, ks), n)
  {
    if AreEnough(Ahead(unready, seen, ks), n) {
      forall pages: seq<set<K>> | |pages| == n && IsOrderedDrain(unready, ready, pages, seen)
        ensures Left(ready, pages) == {}
      {
        EnoughPagesDrain(unready, ready, pages, seen, ks);
      }
    } else {
      var pages := TooFewPagesLeave(unready, ready, seen, ks, n);
    }
  }

  /** What 500 ordered pages, or fewer that leave nothing ready, do to ready rows that fit on 500 pages. */
  ghost predicate IsPackedResult<K(!new)>(unready: set<K>, ready: set<K>, left: set<K>, seen: map<K, int>) {
    forall ks: seq<K> ::
      IsListing(ready, ks, seen) && AreEnough(Ahead(unready, seen, ks), 500) ==> left == {}
  }

  lemma PackedResult<K(!new)>(unready: set<K>, ready: set<K>, pages: seq<set<K>>, seen: map<K, int>)
    requires unready !! ready && IsOrderedDrain(unready, ready, pages, seen)
    requires |pages| == 500 || Left(ready, pages) == {}
    ensures IsPackedResult(unready, ready, Left(ready, pages), seen)
  {
    forall ks: seq<K> | IsListing(ready, ks, seen) && AreEnough(Ahead(unready, seen, ks), 500)
      ensures Left(ready, pages) == {}
    {
      if |pages| == 500 {
        EnoughPagesDrain(unready, ready, pages, seen, ks);
      }
    }
  }
}
