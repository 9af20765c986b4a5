/**
 Draining the pending rows of a tenant into the catalogue: a page of products is synced one product
 after another, page after page, and every page is read from what is still pending.
 */
module PendingSync {
  import opened Prelude
  import opened Products
  import opened Catalogues
  import opened Shops
  import opened UpsertBatches
  import opened DrainBound
  import opened DrainOrder

  /** Visible and not marked as synced. A blocked row is pending too, but never ready. */
  predicate IsPending(p: Product) {
    p.hiddenAt.None? && p.syncedAt.None?
  }

  function PendingKeys(rows: map<Key, Product>, tenant: Uuid): set<Key> {
    set k | k in rows && k.tenant == tenant && IsPending(rows[k])
  }

  /** The pending rows that leave the set once they are synced. */
  function ReadyKeys(rows: map<Key, Product>, tenant: Uuid): set<Key> {
    set k | k in rows && k.tenant == tenant && IsPending(rows[k]) && NeedsSync(rows[k])
  }

  /** The pending rows that stay in it. */
  function UnreadyKeys(rows: map<Key, Product>, tenant: Uuid): set<Key> {
    PendingKeys(rows, tenant) - ReadyKeys(rows, tenant)
  }

  function KeySet(page: seq<Key>): set<Key> {
    set k | k in page
  }

  // ---------------------------------------------------------------- one product, one page, many pages

  /** What one product adds to the counts. */
  datatype Counts = Counts(synced: nat, failed: nat, skipped: nat)

  const NONE := Counts(0, 0, 0)

  function Plus(a: Counts, b: Counts): Counts {
    Counts(a.synced + b.synced, a.failed + b.failed, a.skipped + b.skipped)
  }

  function CountOf(s: Shop, key: Key, w: Weather): Counts {
    if key !in s.rows || !NeedsSync(s.rows[key]) then Counts(0, 0, 1)
    else if Sync(s.catalogue, s.rows[key], w).error.None? then Counts(1, 0, 0)
    else Counts(0, 1, 0)
  }

  function PageOps(page: seq<Key>, now: Time, w: Key -> Weather): seq<Op> {
    if page == [] then []
    else
      var n := |page| - 1;
      PageOps(page[..n], now, w) + [SyncRow(page[n], w(page[n]), now)]
  }

  function PageCounts(s: Shop, page: seq<Key>, now: Time, w: Key -> Weather): Counts {
    if page == [] then NONE
    else
      var n := |page| - 1;
      Plus(PageCounts(s, page[..n], now, w), CountOf(AfterPage(s, page[..n], now, w), page[n], w(page[n])))
  }

  function AfterPage(s: Shop, page: seq<Key>, now: Time, w: Key -> Weather): Shop {
    Run(s, PageOps(page, now, w))
  }

  function AfterPages(s: Shop, pages: seq<seq<Key>>, now: Time, weather: nat -> Key -> Weather): Shop {
    if pages == [] then s
    else
      var n := |pages| - 1;
      AfterPage(AfterPages(s, pages[..n], now, weather), pages[n], now, weather(n))
  }

  function PagesCounts(s: Shop, pages: seq<seq<Key>>, now: Time, weather: nat -> Key -> Weather): Counts {
    if pages == [] then NONE
    else
      var n := |pages| - 1;
      Plus(PagesCounts(s, pages[..n], now, weather),
           PageCounts(AfterPages(s, pages[..n], now, weather), pages[n], now, weather(n)))
  }

  /** A page that the store may return: different pending rows, as many as fit. */
  predicate IsPageOf(s: Shop, tenant: Uuid, page: seq<Key>) {
    Distinct(page) && IsPage(PendingKeys(s.rows, tenant), KeySet(page))
  }

  /** Every page was read from what was pending at its time. */
  predicate PagesAreRead(s: Shop, tenant: Uuid, pages: seq<seq<Key>>, now: Time, weather: nat -> Key -> Weather) {
    pages != [] ==>
      var n := |pages| - 1;
      && PagesAreRead(s, tenant, pages[..n], now, weather)
      && IsPageOf(AfterPages(s, pages[..n], now, weather), tenant, pages[n])
  }

  /** When each row was last seen in a scrape. */
  function SeenIn(rows: map<Key, Product>): map<Key, Time> {
    map k | k in rows :: rows[k].info.lastSeenAt
  }

  /** In the order of a page: no key was seen later than one before it. */
  predicate IsSorted(keys: seq<Key>, seen: map<Key, Time>) {
    forall i, j :: 0 <= i < j < |keys| ==> SeenAt(seen, keys[j]) <= SeenAt(seen, keys[i])
  }

  /** Every page held the rows that were seen last among those pending at its time, latest first. */
  predicate PagesAreNewest(s: Shop, tenant: Uuid, pages: seq<seq<Key>>, now: Time, weather: nat -> Key -> Weather) {
    pages != [] ==>
      var n := |pages| - 1;
      var t := AfterPages(s, pages[..n], now, weather);
      && PagesAreNewest(s, tenant, pages[..n], now, weather)
      && IsNewest(PendingKeys(t.rows, tenant), KeySet(pages[n]), SeenIn(t.rows)) && IsSorted(pages[n], SeenIn(t.rows))
  }

  lemma {:induction false} DistinctSize(page: seq<Key>)
    requires Distinct(page)
    ensures |KeySet(page)| == |page|
  {
    if page != [] {
      var n := |page| - 1;
      DistinctSize(page[..n]);
      assert KeySet(page) == KeySet(page[..n]) + {page[n]};
    }
  }

  lemma PageOpsGrow(s: Shop, page: seq<Key>, n: nat, now: Time, w: Key -> Weather)
    requires n < |page|
    ensures AfterPage(s, page[..n + 1], now, w)
         == Step(AfterPage(s, page[..n], now, w), SyncRow(page[n], w(page[n]), now))
    ensures PageCounts(s, page[..n + 1], now, w)
         == Plus(PageCounts(s, page[..n], now, w), CountOf(AfterPage(s, page[..n], now, w), page[n], w(page[n])))
  {
    assert page[..n + 1][..n] == page[..n];
    var ops := PageOps(page[..n + 1], now, w);
    assert ops[..|ops| - 1] == PageOps(page[..n], now, w);
  }

  lemma {:induction false} PagesKeepWellFormed(s: Shop, pages: seq<seq<Key>>, now: Time, weather: nat -> Key -> Weather)
    requires WellFormed(s)
    ensures WellFormed(AfterPages(s, pages, now, weather))
  {
    if pages != [] {
      var n := |pages| - 1;
      PagesKeepWellFormed(s, pages[..n], now, weather);
      RunKeepsWellFormed(AfterPages(s, pages[..n], now, weather), PageOps(pages[n], now, weather(n)));
    }
  }

  // ---------------------------------------------------------------- fair weather

  ghost predicate IsFair(weather: nat -> Key -> Weather) {
    forall n: nat, k: Key :: weather(n)(k) == FAIR
  }

  /** A sync that every server answers succeeds, and is marked if there was something to sync. */
  lemma FairSync(c: Catalogue, p: Product)
    ensures Sync(c, p, FAIR).error.None? && (Sync(c, p, FAIR).marked <==> NeedsSync(p))
  {
    FindExistingFinds(c, p, FAIR);
  }

  /** The rows in taken, and only they, left the ready ones; and what the counts say about it. */
  predicate TakesReady(before: map<Key, Product>, after: map<Key, Product>, tenant: Uuid, taken: set<Key>,
                       counts: Counts, size: nat) {
    && ReadyKeys(after, tenant) == ReadyKeys(before, tenant) - taken
    && UnreadyKeys(after, tenant) == UnreadyKeys(before, tenant)
    && counts.failed == 0
    && counts.synced == |ReadyKeys(before, tenant)| - |ReadyKeys(after, tenant)|
    && counts.synced + counts.skipped == size
  }

  lemma TakesReadyTwice(r: map<Key, Product>, s: map<Key, Product>, t: map<Key, Product>, tenant: Uuid,
                        a: set<Key>, m: Counts, i: nat, b: set<Key>, n: Counts, j: nat)
    requires TakesReady(r, s, tenant, a, m, i) && TakesReady(s, t, tenant, b, n, j)
    ensures TakesReady(r, t, tenant, a + b, Plus(m, n), i + j)
  {
    assert ReadyKeys(r, tenant) - a - b == ReadyKeys(r, tenant) - (a + b);
  }

  /** Marking a ready row takes it out of the ready ones. */
  lemma MarkTakesReady(rows: map<Key, Product>, tenant: Uuid, key: Key, now: Time)
    requires key in ReadyKeys(rows, tenant)
    ensures TakesReady(rows, MarkRow(rows, key, now), tenant, {key}, Counts(1, 0, 0), 1)
  {
    var marked := MarkRow(rows, key, now);
    var before, after := ReadyKeys(rows, tenant), ReadyKeys(marked, tenant);
    assert after == before - {key};
    assert before == after + {key};
    assert PendingKeys(marked, tenant) == PendingKeys(rows, tenant) - {key};
    assert UnreadyKeys(marked, tenant) == UnreadyKeys(rows, tenant);
  }

  lemma FairRows(s: Shop, key: Key, now: Time)
    requires WellFormed(s) && key in s.rows
    ensures Step(s, SyncRow(key, FAIR, now)).rows
         == if NeedsSync(s.rows[key]) then MarkRow(s.rows, key, now) else s.rows
    ensures CountOf(s, key, FAIR) == if NeedsSync(s.rows[key]) then Counts(1, 0, 0) else Counts(0, 0, 1)
  {
    FairSync(s.catalogue, s.rows[key]);
  }

  /** Syncing a pending row takes it out of the ready ones, if it was one, and changes no other. */
  lemma FairStep(s: Shop, tenant: Uuid, key: Key, now: Time)
    requires WellFormed(s) && key in PendingKeys(s.rows, tenant)
    ensures TakesReady(s.rows, Step(s, SyncRow(key, FAIR, now)).rows, tenant, {key}, CountOf(s, key, FAIR), 1)
  {
    FairRows(s, key, now);
    if NeedsSync(s.rows[key]) {
      MarkTakesReady(s.rows, tenant, key, now);
    } else {
      assert key !in ReadyKeys(s.rows, tenant);
      assert ReadyKeys(s.rows, tenant) == ReadyKeys(s.rows, tenant) - {key};
    }
  }

  lemma StaysPending(before: map<Key, Product>, after: map<Key, Product>, tenant: Uuid, taken: set<Key>,
                     counts: Counts, size: nat, key: Key)
    requires TakesReady(before, after, tenant, taken, counts, size) && key in PendingKeys(before, tenant)
    requires key !in taken
    ensures key in PendingKeys(after, tenant)
  {
    if key in ReadyKeys(before, tenant) {
      assert key in ReadyKeys(after, tenant);
    } else {
      assert key in UnreadyKeys(after, tenant);
    }
  }

  lemma PageSplits(page: seq<Key>, n: nat)
    requires n < |page| && Distinct(page)
    ensures page[n] !in KeySet(page[..n]) && KeySet(page[..n + 1]) == KeySet(page[..n]) + {page[n]}
    ensures page[n] in KeySet(page)
  {
  }

  /** What the first n products of a page do in fair weather. */
  predicate Takes(s: Shop, tenant: Uuid, page: seq<Key>, n: nat, now: Time, w: Key -> Weather)
    requires n <= |page|
  {
    TakesReady(s.rows, AfterPage(s, page[..n], now, w).rows, tenant, KeySet(page[..n]),
               PageCounts(s, page[..n], now, w), n)
  }

  lemma TakesOneMore(s: Shop, tenant: Uuid, page: seq<Key>, n: nat, now: Time, w: Key -> Weather)
    requires WellFormed(s) && Distinct(page) && KeySet(page) <= PendingKeys(s.rows, tenant)
    requires n < |page| && w(page[n]) == FAIR && Takes(s, tenant, page, n, now, w)
    ensures Takes(s, tenant, page, n + 1, now, w)
  {
    PageSplits(page, n);
    RunKeepsWellFormed(s, PageOps(page[..n], now, w));
    OneMore(s, AfterPage(s, page[..n], now, w), tenant, KeySet(page[..n]), PageCounts(s, page[..n], now, w), n,
            page[n], now);
    PageOpsGrow(s, page, n, now, w);
  }

  /** A page takes its ready rows out of the ready ones; nothing fails. */
  lemma FairPage(s: Shop, tenant: Uuid, page: seq<Key>, now: Time, w: Key -> Weather)
    requires WellFormed(s) && Distinct(page) && KeySet(page) <= PendingKeys(s.rows, tenant)
    requires forall k :: w(k) == FAIR
    ensures TakesReady(s.rows, AfterPage(s, page, now, w).rows, tenant, KeySet(page), PageCounts(s, page, now, w),
                       |page|)
  {
    assert page[..0] == [] && KeySet([]) == {};
    for n := 0 to |page|
      invariant Takes(s, tenant, page, n, now, w)
    {
      TakesOneMore(s, tenant, page, n, now, w);
    }
    assert page[..|page|] == page;
  }

  lemma OneMore(s: Shop, t: Shop, tenant: Uuid, taken: set<Key>, counts: Counts, size: nat, key: Key, now: Time)
    requires WellFormed(t) && TakesReady(s.rows, t.rows, tenant, taken, counts, size)
    requires key in PendingKeys(s.rows, tenant) && key !in taken
    ensures TakesReady(s.rows, Step(t, SyncRow(key, FAIR, now)).rows, tenant, taken + {key},
                       Plus(counts, CountOf(t, key, FAIR)), size + 1)
  {
    StaysPending(s.rows, t.rows, tenant, taken, counts, size, key);
    FairStep(t, tenant, key, now);
    TakesReadyTwice(s.rows, t.rows, Step(t, SyncRow(key, FAIR, now)).rows, tenant, taken, counts, size, {key},
                    CountOf(t, key, FAIR), 1);
  }

  function KeySets(pages: seq<seq<Key>>): seq<set<Key>> {
    if pages == [] then [] else KeySets(pages[..|pages| - 1]) + [KeySet(pages[|pages| - 1])]
  }

  /**
   In fair weather the pages form a drain of the ready rows: what it leaves is what is still ready,
   the unready rows are as they were, nothing fails, and each row is counted as synced once.
   */
  lemma {:induction false} FairPagesDrain(s: Shop, tenant: Uuid, pages: seq<seq<Key>>, now: Time,
                                          weather: nat -> Key -> Weather)
    requires WellFormed(s) && IsFair(weather) && PagesAreRead(s, tenant, pages, now, weather)
    ensures |KeySets(pages)| == |pages|
    ensures DrainsTo(s.rows, AfterPages(s, pages, now, weather).rows, tenant, KeySets(pages),
                     PagesCounts(s, pages, now, weather))
  {
    if pages != [] {
      var n := |pages| - 1;
      FairPagesDrain(s, tenant, pages[..n], now, weather);
      PagesKeepWellFormed(s, pages[..n], now, weather);
      var u := AfterPages(s, pages[..n], now, weather);
      FairPage(u, tenant, pages[n], now, weather(n));
      DrainsOneMore(s.rows, u.rows, AfterPages(s, pages, now, weather).rows, tenant, KeySets(pages[..n]),
                    PagesCounts(s, pages[..n], now, weather),
                    KeySet(pages[n]), PageCounts(u, pages[n], now, weather(n)), |pages[n]|);
    }
  }

  /** The facts about the rows and the counts after a drain in fair weather. */
  predicate DrainsTo(before: map<Key, Product>, after: map<Key, Product>, tenant: Uuid, pages: seq<set<Key>>,
                     counts: Counts) {
    && IsDrain(UnreadyKeys(before, tenant), ReadyKeys(before, tenant), pages)
    && ReadyKeys(after, tenant) == Left(ReadyKeys(before, tenant), pages)
    && UnreadyKeys(after, tenant) == UnreadyKeys(before, tenant)
    && counts.failed == 0
    && counts.synced == |ReadyKeys(before, tenant)| - |ReadyKeys(after, tenant)|
  }

  lemma DrainsOneMore(r: map<Key, Product>, s: map<Key, Product>, t: map<Key, Product>, tenant: Uuid,
                      pages: seq<set<Key>>, m: Counts, page: set<Key>, n: Counts, size: nat)
    requires DrainsTo(r, s, tenant, pages, m) && IsPage(PendingKeys(s, tenant), page)
    requires TakesReady(s, t, tenant, page, n, size)
    ensures DrainsTo(r, t, tenant, pages + [page], Plus(m, n))
  {
    PendingSplits(s, tenant);
    DrainGrows(UnreadyKeys(r, tenant), ReadyKeys(r, tenant), pages, page);
  }

  lemma PendingSplits(rows: map<Key, Product>, tenant: Uuid)
    ensures PendingKeys(rows, tenant) == UnreadyKeys(rows, tenant) + ReadyKeys(rows, tenant)
  {
  }

  // ---------------------------------------------------------------- any weather

  function AttemptOn(s: Shop, key: Key, w: Weather): seq<Attempt> {
    if key in s.rows && NeedsSync(s.rows[key]) then [Attempt(s.rows[key], w)] else []
  }

  lemma StepIsSync(s: Shop, key: Key, w: Weather, now: Time, c: Catalogue, before: seq<Attempt>)
    requires s.catalogue == SyncAll(c, before)
    ensures Step(s, SyncRow(key, w, now)).catalogue == SyncAll(c, before + AttemptOn(s, key, w))
    ensures |AttemptOn(s, key, w)| == CountOf(s, key, w).synced + CountOf(s, key, w).failed
  {
    if key in s.rows && NeedsSync(s.rows[key]) {
      var all := before + [Attempt(s.rows[key], w)];
      assert all[..|all| - 1] == before;
    } else {
      assert before + [] == before;
    }
  }

  /** The attempts that a page makes: its ready products, with the weather each one meets. */
  function PageAttempts(s: Shop, page: seq<Key>, now: Time, w: Key -> Weather): seq<Attempt> {
    if page == [] then []
    else
      var n := |page| - 1;
      PageAttempts(s, page[..n], now, w) + AttemptOn(AfterPage(s, page[..n], now, w), page[n], w(page[n]))
  }

  function PagesAttempts(s: Shop, pages: seq<seq<Key>>, now: Time, weather: nat -> Key -> Weather): seq<Attempt> {
    if pages == [] then []
    else
      var n := |pages| - 1;
      PagesAttempts(s, pages[..n], now, weather)
      + PageAttempts(AfterPages(s, pages[..n], now, weather), pages[n], now, weather(n))
  }

  lemma AttemptsGrow(s: Shop, page: seq<Key>, n: nat, now: Time, w: Key -> Weather)
    requires n < |page|
    ensures PageAttempts(s, page[..n + 1], now, w)
         == PageAttempts(s, page[..n], now, w) + AttemptOn(AfterPage(s, page[..n], now, w), page[n], w(page[n]))
  {
    assert page[..n + 1][..n] == page[..n];
  }

  /** What is true of the first n products of a page. */
  ghost predicate IsSyncs(s: Shop, page: seq<Key>, n: nat, now: Time, w: Key -> Weather, c: Catalogue,
                          before: seq<Attempt>)
    requires n <= |page|
  {
    && AfterPage(s, page[..n], now, w).catalogue == SyncAll(c, before + PageAttempts(s, page[..n], now, w))
    && |PageAttempts(s, page[..n], now, w)|
       == PageCounts(s, page[..n], now, w).synced + PageCounts(s, page[..n], now, w).failed
  }

  lemma Regroup(a: seq<Attempt>, b: seq<Attempt>, c: seq<Attempt>)
    ensures a + (b + c) == a + b + c
  {
  }

  lemma OneMoreIsSync(s: Shop, page: seq<Key>, n: nat, now: Time, w: Key -> Weather, c: Catalogue, before: seq<Attempt>)
    requires n < |page| && IsSyncs(s, page, n, now, w, c, before)
    ensures IsSyncs(s, page, n + 1, now, w, c, before)
  {
    var t, front := AfterPage(s, page[..n], now, w), PageAttempts(s, page[..n], now, w);
    StepIsSync(t, page[n], w(page[n]), now, c, before + front);
    PageOpsGrow(s, page, n, now, w);
    AttemptsGrow(s, page, n, now, w);
    Regroup(before, front, AttemptOn(t, page[n], w(page[n])));
  }

  /** Whatever the weather, a page makes one sync attempt for each product it counts as synced or failed. */
  lemma PageIsSyncs(s: Shop, page: seq<Key>, now: Time, w: Key -> Weather, c: Catalogue, before: seq<Attempt>)
    requires s.catalogue == SyncAll(c, before)
    ensures AfterPage(s, page, now, w).catalogue == SyncAll(c, before + PageAttempts(s, page, now, w))
    ensures |PageAttempts(s, page, now, w)| == PageCounts(s, page, now, w).synced + PageCounts(s, page, now, w).failed
  {
    assert page[..0] == [] && before + [] == before;
    for n := 0 to |page|
      invariant IsSyncs(s, page, n, now, w, c, before)
    {
      OneMoreIsSync(s, page, n, now, w, c, before);
    }
    assert page[..|page|] == page;
  }

  /** Whatever the weather, the catalogue is the result of the attempts counted as synced or failed. */
  lemma {:induction false} PagesAreSyncs(s: Shop, pages: seq<seq<Key>>, now: Time, weather: nat -> Key -> Weather)
    ensures AfterPages(s, pages, now, weather).catalogue == SyncAll(s.catalogue, PagesAttempts(s, pages, now, weather))
    ensures |PagesAttempts(s, pages, now, weather)|
         == PagesCounts(s, pages, now, weather).synced + PagesCounts(s, pages, now, weather).failed
  {
    if pages != [] {
      var n := |pages| - 1;
      PagesAreSyncs(s, pages[..n], now, weather);
      PageIsSyncs(AfterPages(s, pages[..n], now, weather), pages[n], now, weather(n), s.catalogue,
                  PagesAttempts(s, pages[..n], now, weather));
    }
  }

  // ---------------------------------------------------------------- the count of the synced

  /** No mark of a synced row is lost. */
  ghost predicate MarksAreStored(weather: nat -> Key -> Weather) {
    forall n: nat, k: Key :: weather(n)(k).markStored
  }

  /** A row that is synced and marked leaves the ready ones, and no other row does. */
  lemma StoredStep(s: Shop, tenant: Uuid, key: Key, w: Weather, now: Time)
    requires WellFormed(s) && key in s.rows && key.tenant == tenant && w.markStored
    ensures |ReadyKeys(Step(s, SyncRow(key, w, now)).rows, tenant)|
         == |ReadyKeys(s.rows, tenant)| - CountOf(s, key, w).synced
  {
    var r := Sync(s.catalogue, s.rows[key], w);
    StoredSync(s.catalogue, s.rows[key], w);
    if r.marked {
      assert key in ReadyKeys(s.rows, tenant);
      MarkTakesReady(s.rows, tenant, key, now);
    }
  }

  lemma StoredSync(c: Catalogue, p: Product, w: Weather)
    requires w.markStored
    ensures Sync(c, p, w).marked <==> NeedsSync(p) && Sync(c, p, w).error.None?
  {
    FindExistingFinds(c, p, w);
  }

  lemma {:induction false} StoredPage(s: Shop, tenant: Uuid, page: seq<Key>, now: Time, w: Key -> Weather)
    requires WellFormed(s) && forall k :: w(k).markStored
    requires forall k :: k in page ==> k in s.rows && k.tenant == tenant
    ensures |ReadyKeys(AfterPage(s, page, now, w).rows, tenant)|
         == |ReadyKeys(s.rows, tenant)| - PageCounts(s, page, now, w).synced
  {
    if page != [] {
      var n := |page| - 1;
      StoredPage(s, tenant, page[..n], now, w);
      RunKeepsWellFormed(s, PageOps(page[..n], now, w));
      PageOnlyMarks(s, page[..n], now, w);
      StoredStep(AfterPage(s, page[..n], now, w), tenant, page[n], w(page[n]), now);
      PageOpsGrow(s, page, n, now, w);
      assert page[..n + 1] == page;
    }
  }

  /** Whatever the weather, if no mark is lost, as many rows leave the ready ones as are counted as synced. */
  lemma {:induction false} StoredPages(s: Shop, tenant: Uuid, pages: seq<seq<Key>>, now: Time,
                                       weather: nat -> Key -> Weather)
    requires WellFormed(s) && MarksAreStored(weather) && PagesAreRead(s, tenant, pages, now, weather)
    ensures |ReadyKeys(AfterPages(s, pages, now, weather).rows, tenant)|
         == |ReadyKeys(s.rows, tenant)| - PagesCounts(s, pages, now, weather).synced
  {
    if pages != [] {
      var n := |pages| - 1;
      StoredPages(s, tenant, pages[..n], now, weather);
      PagesKeepWellFormed(s, pages[..n], now, weather);
      assert forall k :: k in pages[n] ==> k in KeySet(pages[n]);
      StoredPage(AfterPages(s, pages[..n], now, weather), tenant, pages[n], now, weather(n));
    }
  }

  // ---------------------------------------------------------------- pages of unready rows

  lemma {:induction false} UnreadyPageIsIdle(s: Shop, page: seq<Key>, now: Time, w: Key -> Weather)
    requires forall k :: k in page ==> k in s.rows && !NeedsSync(s.rows[k])
    ensures AfterPage(s, page, now, w) == s && PageCounts(s, page, now, w) == Counts(0, 0, |page|)
  {
    if page != [] {
      var n := |page| - 1;
      UnreadyPageIsIdle(s, page[..n], now, w);
      PageOpsGrow(s, page, n, now, w);
      assert page[..n + 1] == page;
    }
  }

  /**
   Whatever the weather, a page that is filled by rows that are not ready can be read again and again:
   every such drain changes nothing, and counts every row on every page as consumed.
   */
  lemma {:induction false} UnreadyPagesStall(s: Shop, tenant: Uuid, page: seq<Key>, n: nat, now: Time,
                                             weather: nat -> Key -> Weather)
    requires Distinct(page) && |page| == 200 && KeySet(page) <= UnreadyKeys(s.rows, tenant)
    ensures var pages := seq(n, _ => page);
            && PagesAreRead(s, tenant, pages, now, weather) && AfterPages(s, pages, now, weather) == s
            && PagesCounts(s, pages, now, weather) == Counts(0, 0, n * 200)
  {
    if n > 0 {
      var pages := seq(n, _ => page);
      UnreadyPagesStall(s, tenant, page, n - 1, now, weather);
      assert pages[..n - 1] == seq(n - 1, _ => page);
      UnreadyFillsPage(s, tenant, page, now, weather(n - 1));
    }
  }

  lemma UnreadyFillsPage(s: Shop, tenant: Uuid, page: seq<Key>, now: Time, w: Key -> Weather)
    requires Distinct(page) && |page| == 200 && KeySet(page) <= UnreadyKeys(s.rows, tenant)
    ensures IsPageOf(s, tenant, page)
    ensures AfterPage(s, page, now, w) == s && PageCounts(s, page, now, w) == Counts(0, 0, |page|)
  {
    DistinctSize(page);
    SubsetSize(KeySet(page), PendingKeys(s.rows, tenant));
    forall k | k in page
      ensures k in s.rows && !NeedsSync(s.rows[k])
    {
      assert k in UnreadyKeys(s.rows, tenant);
    }
    UnreadyPageIsIdle(s, page, now, w);
  }

  /** Every row, as it is stored, may be synced in any of the weather without duplicating a name. */
  ghost predicate NamesAreSafe(rows: map<Key, Product>, weather: nat -> Key -> Weather) {
    forall n: nat, k: Key :: k in rows ==> NameSafe(rows[k], weather(n)(k))
  }

  ghost predicate EansAreSafe(rows: map<Key, Product>, weather: nat -> Key -> Weather) {
    forall n: nat, k: Key :: k in rows ==> EanSafe(rows[k], weather(n)(k))
  }

  /** A row as it was, or marked now if it was ready. */
  predicate IsMaybeMarked(before: Product, after: Product, now: Time) {
    after == before || (NeedsSync(before) && after == before.(syncedAt := Some(now)))
  }

  /** The rows are those of before, except that some that were ready are marked. */
  ghost predicate OnlyMarked(before: map<Key, Product>, after: map<Key, Product>, now: Time) {
    after.Keys == before.Keys && forall k :: k in before ==> IsMaybeMarked(before[k], after[k], now)
  }

  lemma OnlyMarkedTwice(r: map<Key, Product>, s: map<Key, Product>, t: map<Key, Product>, now: Time)
    requires OnlyMarked(r, s, now) && OnlyMarked(s, t, now)
    ensures OnlyMarked(r, t, now)
  {
    forall k | k in r
      ensures IsMaybeMarked(r[k], t[k], now)
    {
      assert IsMaybeMarked(r[k], s[k], now) && IsMaybeMarked(s[k], t[k], now);
    }
  }

  lemma StepOnlyMarks(s: Shop, key: Key, w: Weather, now: Time)
    requires WellFormed(s)
    ensures OnlyMarked(s.rows, Step(s, SyncRow(key, w, now)).rows, now)
  {
    if key in s.rows {
      SyncTouchesMarksOnly(s, s.rows[key], now, Some(w));
    }
  }

  lemma {:induction false} PageOnlyMarks(s: Shop, page: seq<Key>, now: Time, w: Key -> Weather)
    requires WellFormed(s)
    ensures OnlyMarked(s.rows, AfterPage(s, page, now, w).rows, now)
  {
    if page != [] {
      var n := |page| - 1;
      PageOnlyMarks(s, page[..n], now, w);
      RunKeepsWellFormed(s, PageOps(page[..n], now, w));
      var t := AfterPage(s, page[..n], now, w);
      StepOnlyMarks(t, page[n], w(page[n]), now);
      PageOpsGrow(s, page, n, now, w);
      assert page[..n + 1] == page;
      OnlyMarkedTwice(s.rows, t.rows, AfterPage(s, page, now, w).rows, now);
    }
  }

  lemma {:induction false} PagesOnlyMark(s: Shop, pages: seq<seq<Key>>, now: Time, weather: nat -> Key -> Weather)
    requires WellFormed(s)
    ensures OnlyMarked(s.rows, AfterPages(s, pages, now, weather).rows, now)
  {
    if pages != [] {
      var n := |pages| - 1;
      PagesOnlyMark(s, pages[..n], now, weather);
      PagesKeepWellFormed(s, pages[..n], now, weather);
      var t := AfterPages(s, pages[..n], now, weather);
      PageOnlyMarks(t, pages[n], now, weather(n));
      OnlyMarkedTwice(s.rows, t.rows, AfterPages(s, pages, now, weather).rows, now);
    }
  }

  /** Rows of other tenants are not touched. */
  lemma {:induction false} PageKeepsOthers(s: Shop, page: seq<Key>, now: Time, w: Key -> Weather, k: Key)
    requires WellFormed(s) && k !in page
    ensures k in AfterPage(s, page, now, w).rows <==> k in s.rows
    ensures k in s.rows ==> AfterPage(s, page, now, w).rows[k] == s.rows[k]
  {
    if page != [] {
      var n := |page| - 1;
      PageKeepsOthers(s, page[..n], now, w, k);
      RunKeepsWellFormed(s, PageOps(page[..n], now, w));
      StepElsewhere(AfterPage(s, page[..n], now, w), SyncRow(page[n], w(page[n]), now), k);
      PageOpsGrow(s, page, n, now, w);
      assert page[..n + 1] == page;
    }
  }

  lemma {:induction false} PagesKeepOthers(s: Shop, tenant: Uuid, pages: seq<seq<Key>>, now: Time,
                                           weather: nat -> Key -> Weather, k: Key)
    requires WellFormed(s) && PagesAreRead(s, tenant, pages, now, weather) && k.tenant != tenant
    ensures k in AfterPages(s, pages, now, weather).rows <==> k in s.rows
    ensures k in s.rows ==> AfterPages(s, pages, now, weather).rows[k] == s.rows[k]
  {
    if pages != [] {
      var n := |pages| - 1;
      PagesKeepOthers(s, tenant, pages[..n], now, weather, k);
      PagesKeepWellFormed(s, pages[..n], now, weather);
      assert forall l :: l in pages[n] ==> l in KeySet(pages[n]);
      PageKeepsOthers(AfterPages(s, pages[..n], now, weather), pages[n], now, weather(n), k);
    }
  }

  /** Syncing does not change when a row was last seen. */
  lemma SeenStays(before: map<Key, Product>, after: map<Key, Product>, now: Time)
    requires OnlyMarked(before, after, now)
    ensures SeenIn(after) == SeenIn(before)
  {
    assert forall k :: k in before ==> IsMaybeMarked(before[k], after[k], now);
  }

  /** In fair weather, pages of the rows seen last form an ordered drain. */
  lemma {:induction false} FairPagesAreOrdered(s: Shop, tenant: Uuid, pages: seq<seq<Key>>, now: Time,
                                               weather: nat -> Key -> Weather)
    requires WellFormed(s) && IsFair(weather)
    requires PagesAreRead(s, tenant, pages, now, weather) && PagesAreNewest(s, tenant, pages, now, weather)
    ensures IsOrderedDrain(UnreadyKeys(s.rows, tenant), ReadyKeys(s.rows, tenant), KeySets(pages), SeenIn(s.rows))
  {
    if pages != [] {
      var n := |pages| - 1;
      var t := AfterPages(s, pages[..n], now, weather);
      FairPagesAreOrdered(s, tenant, pages[..n], now, weather);
      FairPagesDrain(s, tenant, pages[..n], now, weather);
      PagesOnlyMark(s, pages[..n], now, weather);
      SeenStays(s.rows, t.rows, now);
      PendingSplits(t.rows, tenant);
      OrderedDrainGrows(UnreadyKeys(s.rows, tenant), ReadyKeys(s.rows, tenant), KeySets(pages[..n]), KeySet(pages[n]),
                        SeenIn(s.rows));
    }
  }

  /** A mark never makes a row unsafe: a marked row is not synced at all. */
  lemma MarkedIsSafe(before: map<Key, Product>, after: map<Key, Product>, now: Time, key: Key, w: Weather)
    requires OnlyMarked(before, after, now) && key in before
    ensures NameSafe(before[key], w) ==> NameSafe(after[key], w)
    ensures EanSafe(before[key], w) ==> EanSafe(after[key], w)
  {
    assert IsMaybeMarked(before[key], after[key], now);
  }

  lemma AttemptIsSafe(before: map<Key, Product>, t: Shop, now: Time, key: Key, w: Weather)
    requires OnlyMarked(before, t.rows, now)
    ensures (key in before ==> NameSafe(before[key], w)) ==> AllNameSafe(AttemptOn(t, key, w))
    ensures (key in before ==> EanSafe(before[key], w)) ==> AllEanSafe(AttemptOn(t, key, w))
  {
    if key in before {
      MarkedIsSafe(before, t.rows, now, key, w);
    }
  }

  lemma {:induction false} PageIsSafe(s: Shop, page: seq<Key>, now: Time, w: Key -> Weather)
    requires WellFormed(s)
    ensures (forall k :: k in s.rows ==> NameSafe(s.rows[k], w(k))) ==> AllNameSafe(PageAttempts(s, page, now, w))
    ensures (forall k :: k in s.rows ==> EanSafe(s.rows[k], w(k))) ==> AllEanSafe(PageAttempts(s, page, now, w))
  {
    if page != [] {
      var n := |page| - 1;
      var t := AfterPage(s, page[..n], now, w);
      PageIsSafe(s, page[..n], now, w);
      PageOnlyMarks(s, page[..n], now, w);
      AttemptIsSafe(s.rows, t, now, page[n], w(page[n]));
      SafeConcat(PageAttempts(s, page[..n], now, w), AttemptOn(t, page[n], w(page[n])));
    }
  }

  lemma SafeConcat(a: seq<Attempt>, b: seq<Attempt>)
    ensures AllNameSafe(a) && AllNameSafe(b) ==> AllNameSafe(a + b)
    ensures AllEanSafe(a) && AllEanSafe(b) ==> AllEanSafe(a + b)
  {
  }

  lemma {:induction false} PagesAreSafe(s: Shop, pages: seq<seq<Key>>, now: Time, weather: nat -> Key -> Weather)
    requires WellFormed(s)
    ensures NamesAreSafe(s.rows, weather) ==> AllNameSafe(PagesAttempts(s, pages, now, weather))
    ensures EansAreSafe(s.rows, weather) ==> AllEanSafe(PagesAttempts(s, pages, now, weather))
  {
    if pages != [] {
      var n := |pages| - 1;
      var t := AfterPages(s, pages[..n], now, weather);
      PagesAreSafe(s, pages[..n], now, weather);
      PagesOnlyMark(s, pages[..n], now, weather);
      PagesKeepWellFormed(s, pages[..n], now, weather);
      forall k | k in t.rows
        ensures NameSafe(s.rows[k], weather(n)(k)) ==> NameSafe(t.rows[k], weather(n)(k))
        ensures EanSafe(s.rows[k], weather(n)(k)) ==> EanSafe(t.rows[k], weather(n)(k))
      {
        MarkedIsSafe(s.rows, t.rows, now, k, weather(n)(k));
      }
      PageIsSafe(t, pages[n], now, weather(n));
      SafeConcat(PagesAttempts(s, pages[..n], now, weather), PageAttempts(t, pages[n], now, weather(n)));
    }
  }

  /**
   A drain in which replies and marks may be lost still creates no second entry of a name, or of a
   code, as long as the stored rows are safe for that in the weather it meets.
   */
  lemma DrainsCreateOnce(s: Shop, pages: seq<seq<Key>>, now: Time, weather: nat -> Key -> Weather)
    requires WellFormed(s)
    ensures NamesAreSafe(s.rows, weather) && UniqueNames(s.catalogue) ==>
              UniqueNames(AfterPages(s, pages, now, weather).catalogue)
    ensures EansAreSafe(s.rows, weather) && UniqueEans(s.catalogue) ==>
              UniqueEans(AfterPages(s, pages, now, weather).catalogue)
  {
    PagesAreSyncs(s, pages, now, weather);
    PagesAreSafe(s, pages, now, weather);
    SyncsCreateOnce(s.catalogue, PagesAttempts(s, pages, now, weather));
  }
}
