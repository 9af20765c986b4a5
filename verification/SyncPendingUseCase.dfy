/** SyncPending: reads page 1 of the pending rows again and again, and syncs what is ready on it. */
module SyncPendingUseCase {
  import opened Prelude
  import opened Products
  import opened Catalogues
  import opened Shops
  import opened DrainBound
  import opened DrainOrder
  import opened DrainPacking
  import opened Namesakes
  import opened PendingSync
  import opened UpsertUseCase

  /** One product of a page, which is as its row is. */
  method SyncListed(store: ProductStore, client: Client, product: ScrapedProduct, now: Time, w: Weather)
    returns (counts: Counts)
    requires WellFormed(ShopOf(store, client))
    requires product.key in store.rows && product.Value() == store.rows[product.key]
    modifies store`rows, client, product
    ensures ShopOf(store, client) == Step(old(ShopOf(store, client)), SyncRow(product.key, w, now))
    ensures counts == CountOf(old(ShopOf(store, client)), product.key, w)
    ensures forall k :: k in old(store.rows) && k != product.key ==>
                          k in store.rows && store.rows[k] == old(store.rows)[k]
  {
    if !NeedsSync(product.Value()) {
      return Counts(0, 0, 1);
    }
    MarkIdIsMarkRow(ShopOf(store, client), product.Value(), now);
    var markRow, error := client.SyncProduct(product, w, now);
    if markRow {
      store.MarkSynced(product.key.tenant, product.id, now);
    }
    return if error.Some? then Counts(0, 1, 0) else Counts(1, 0, 0);
  }

  /** The loop's counters: products that are not ready count as consumed, failed ones do not. */
  predicate Tallies(counts: Counts, synced: nat, failed: nat, consumed: nat) {
    synced == counts.synced && failed == counts.failed && consumed == counts.synced + counts.skipped
  }

  lemma TalliesMore(before: Counts, counts: Counts, synced: nat, failed: nat, consumed: nat)
    requires Tallies(before, synced, failed, consumed)
    ensures Tallies(Plus(before, counts), synced + counts.synced, failed + counts.failed,
                    consumed + counts.synced + counts.skipped)
  {
  }

  /** The products of a page from position i on are as their rows are. */
  predicate StillLoaded(rows: map<Key, Product>, keys: seq<Key>, page: seq<ScrapedProduct>, i: nat)
    reads page
  {
    && |keys| == |page|
    && (forall j :: 0 <= j < |page| ==> page[j].key == keys[j])
    && (forall j :: i <= j < |page| ==> keys[j] in rows && page[j].Value() == rows[keys[j]])
  }

  /** The next product of a page. */
  method SyncNext(store: ProductStore, client: Client, page: seq<ScrapedProduct>, ghost keys: seq<Key>, i: nat,
                  now: Time, weather: Key -> Weather, ghost s: Shop)
    returns (counts: Counts)
    requires WellFormed(s) && Distinct(keys) && i < |page| && StillLoaded(store.rows, keys, page, i)
    requires ShopOf(store, client) == AfterPage(s, keys[..i], now, weather)
    modifies store`rows, client, page[i]
    ensures StillLoaded(store.rows, keys, page, i + 1)
    ensures ShopOf(store, client) == AfterPage(s, keys[..i + 1], now, weather)
    ensures PageCounts(s, keys[..i + 1], now, weather) == Plus(PageCounts(s, keys[..i], now, weather), counts)
  {
    PageOpsGrow(s, keys, i, now, weather);
    RunKeepsWellFormed(s, PageOps(keys[..i], now, weather));
    counts := SyncListed(store, client, page[i], now, weather(page[i].key));
  }

  /** One page. A product that is not ready counts as consumed, one whose sync fails does not. */
  method SyncPage(store: ProductStore, client: Client, page: seq<ScrapedProduct>, ghost keys: seq<Key>, now: Time,
                  weather: Key -> Weather)
    returns (synced: nat, failed: nat, consumed: nat)
    requires WellFormed(ShopOf(store, client)) && Distinct(keys) && Loaded(store.rows, keys, page)
    modifies store`rows, client, page
    ensures ShopOf(store, client) == AfterPage(old(ShopOf(store, client)), keys, now, weather)
    ensures Tallies(PageCounts(old(ShopOf(store, client)), keys, now, weather), synced, failed, consumed)
  {
    ghost var s := ShopOf(store, client);
    synced, failed, consumed := 0, 0, 0;
    assert keys[..0] == [];
    for i := 0 to |page|
      invariant StillLoaded(store.rows, keys, page, i)
      invariant ShopOf(store, client) == AfterPage(s, keys[..i], now, weather)
      invariant Tallies(PageCounts(s, keys[..i], now, weather), synced, failed, consumed)
    {
      var counts := SyncNext(store, client, page, keys, i, now, weather, s);
      TalliesMore(PageCounts(s, keys[..i], now, weather), counts, synced, failed, consumed);
      synced, failed, consumed :=
        synced + counts.synced, failed + counts.failed, consumed + counts.synced + counts.skipped;
    }
    assert keys[..|page|] == keys;
  }

  /** One round: reads page 1 and syncs it. Nothing is consumed of an empty page. */
  method FetchAndSync(store: ProductStore, client: Client, tenant: Uuid, now: Time, weather: Key -> Weather)
    returns (synced: nat, failed: nat, consumed: nat, ghost keys: seq<Key>)
    requires WellFormed(ShopOf(store, client))
    modifies store`rows, client
    ensures IsPageOf(old(ShopOf(store, client)), tenant, keys)
    ensures IsNewest(PendingKeys(old(store.rows), tenant), KeySet(keys), SeenIn(old(store.rows)))
    ensures IsSorted(keys, SeenIn(old(store.rows)))
    ensures ShopOf(store, client) == AfterPage(old(ShopOf(store, client)), keys, now, weather)
    ensures Tallies(PageCounts(old(ShopOf(store, client)), keys, now, weather), synced, failed, consumed)
  {
    var page;
    page, keys := store.FindPending(tenant);
    if |page| == 0 {
      return 0, 0, 0, keys;
    }
    synced, failed, consumed := SyncPage(store, client, page, keys, now, weather);
  }

  /** The loop stops at an empty page, at a page of which nothing was consumed, and after 500 pages. */
  predicate Stops(s: Shop, pages: seq<seq<Key>>, now: Time, weather: nat -> Key -> Weather) {
    || |pages| == MAX_ITERATIONS
    || (pages != [] &&
        var n := |pages| - 1;
        var counts := PageCounts(AfterPages(s, pages[..n], now, weather), pages[n], now, weather(n));
        counts.synced + counts.skipped == 0)
  }

  /** It did not stop before its last page. */
  ghost predicate WentOn(s: Shop, pages: seq<seq<Key>>, now: Time, weather: nat -> Key -> Weather) {
    forall n :: 0 < n < |pages| ==> !Stops(s, pages[..n], now, weather)
  }

  /**
   A page in terms of the rows' columns: 200 visible rows of the tenant that are not yet synced, or all of
   them if they are fewer, each once, those seen last first; and of the others none was seen later.
   */
  ghost predicate IsReadFrom(rows: map<Key, Product>, tenant: Uuid, page: seq<Key>) {
    var pending := set k | k in rows && k.tenant == tenant && rows[k].hiddenAt.None? && rows[k].syncedAt.None?;
    && (forall k :: k in page ==> k in pending)
    && (forall i, j :: 0 <= i < j < |page| ==> page[i] != page[j])
    && (forall i, j :: 0 <= i < j < |page| && page[i] in rows && page[j] in rows ==>
                         rows[page[j]].info.lastSeenAt <= rows[page[i]].info.lastSeenAt)
    && (|page| == 200 || (|page| < 200 && forall k :: k in pending ==> k in page))
    && (forall k, l :: k in page && l in pending && l !in page ==> rows[l].info.lastSeenAt <= rows[k].info.lastSeenAt)
  }

  ghost predicate AllReadFrom(s: Shop, tenant: Uuid, pages: seq<seq<Key>>, now: Time, weather: nat -> Key -> Weather) {
    forall n :: 0 <= n < |pages| ==> IsReadFrom(AfterPages(s, pages[..n], now, weather).rows, tenant, pages[n])
  }

  /** Of the rows, only the tenant's that have all a sync needs are marked, and nothing else changes. */
  ghost predicate MarksOnlySendable(before: map<Key, Product>, after: map<Key, Product>, tenant: Uuid, now: Time) {
    && before.Keys == after.Keys
    && forall k :: k in before && after[k] != before[k] ==>
                     && k.tenant == tenant && IsSendable(before[k]) && after[k] == before[k].(syncedAt := Some(now))
  }

  /** The tenant's rows that a sync would send. */
  function SendableKeys(rows: map<Key, Product>, tenant: Uuid): set<Key> {
    set k | k in rows && k.tenant == tenant && IsSendable(rows[k])
  }

  /** The tenant's visible and unsynced rows that lack something, or are blocked. */
  function UnsendableKeys(rows: map<Key, Product>, tenant: Uuid): set<Key> {
    set k | k in rows && k.tenant == tenant && rows[k].hiddenAt.None? && rows[k].syncedAt.None? && !IsSendable(rows[k])
  }

  function ChangedKeys(before: map<Key, Product>, after: map<Key, Product>): set<Key> {
    set k | k in before && k in after && after[k] != before[k]
  }

  /**
   A drain in fair weather, in numbers. Nothing fails, and the count is that of the rows marked. With r
   sendable rows and u < 200 other pending ones, all are marked if r <= 500 * (200 - u). The loop reads
   all 500 pages if u > 0, and otherwise as many as the r rows fill and an empty one.
   */
  predicate AreFairNumbers(sendable: set<Key>, others: set<Key>, marked: set<Key>, synced: nat, failed: nat,
                           fetches: nat) {
    var r, u := |sendable|, |others|;
    && failed == 0
    && synced == |marked|
    && (u < 200 && r <= 500 * (200 - u) ==> marked == sendable)
    && fetches == if u > 0 then 500 else Min(500, (r + 199) / 200 + 1)
  }

  ghost predicate IsFairOutcome(before: map<Key, Product>, after: map<Key, Product>, tenant: Uuid, synced: nat,
                                failed: nat, fetches: nat) {
    AreFairNumbers(SendableKeys(before, tenant), UnsendableKeys(before, tenant), ChangedKeys(before, after), synced,
                   failed, fetches)
  }

  /**
   What the order of the pages adds: all ready rows are synced if they fit on 500 pages, packed in that
   order, and so if each has at most m unready rows before it and there are at most 500 * (200 - m) of
   them; a ready row with 200 unready rows seen later than it is never synced.
   */
  ghost predicate IsOrderedOutcome(before: map<Key, Product>, after: map<Key, Product>, tenant: Uuid) {
    var ready, unready := ReadyKeys(before, tenant), UnreadyKeys(before, tenant);
    && IsOrderedResult(unready, ready, ReadyKeys(after, tenant), SeenIn(before))
    && IsPackedResult(unready, ready, ReadyKeys(after, tenant), SeenIn(before))
  }

  /** The whole drain: the pages it reads, what it makes of the store and the catalogue, its counts. */
  method SyncPending(store: ProductStore, client: Client, tenant: Uuid, now: Time, weather: nat -> Key -> Weather)
    returns (synced: nat, failed: nat, ghost pages: seq<seq<Key>>)
    requires WellFormed(ShopOf(store, client))
    modifies store`rows, client
    ensures |pages| <= 500 && AllReadFrom(old(ShopOf(store, client)), tenant, pages, now, weather)
    ensures Stops(old(ShopOf(store, client)), pages, now, weather)
    ensures WentOn(old(ShopOf(store, client)), pages, now, weather)
    ensures ShopOf(store, client) == AfterPages(old(ShopOf(store, client)), pages, now, weather)
    ensures var counts := PagesCounts(old(ShopOf(store, client)), pages, now, weather);
            synced == counts.synced && failed == counts.failed
    ensures MarksOnlySendable(old(store.rows), store.rows, tenant, now)
    ensures MarksAreStored(weather) ==> synced == |ChangedKeys(old(store.rows), store.rows)|
    ensures IsFair(weather) ==>
              && IsFairOutcome(old(store.rows), store.rows, tenant, synced, failed, |pages|)
              && IsOrderedOutcome(old(store.rows), store.rows, tenant)
  {
    ghost var s := ShopOf(store, client);
    synced, failed, pages := DrainPages(store, client, tenant, now, weather);
    PagesAreReadFrom(s, tenant, pages, now, weather);
    PagesMarkSendable(s, tenant, pages, now, weather);
    TakenAreMarked(s.rows, store.rows, tenant, now);
    TakenSize(ReadyKeys(s.rows, tenant), ReadyKeys(store.rows, tenant));
    if MarksAreStored(weather) {
      StoredPages(s, tenant, pages, now, weather);
    }
    if IsFair(weather) {
      FairDrain(s, tenant, pages, now, weather);
      FairOrderedDrain(s, tenant, pages, now, weather);
    }
  }

  /** One more page of the drain; the loop ends there if nothing of it was consumed. */
  method DrainOne(store: ProductStore, client: Client, tenant: Uuid, now: Time, weather: nat -> Key -> Weather,
                  iter: nat, synced: nat, failed: nat, ghost s: Shop, ghost pages: seq<seq<Key>>)
    returns (nowSynced: nat, nowFailed: nat, consumed: nat, ghost more: seq<seq<Key>>)
    requires iter == |pages| && HasDrained(s, tenant, pages, now, weather, ShopOf(store, client), synced, failed)
    modifies store`rows, client
    ensures |more| == |pages| + 1 && more[..|pages|] == pages
    ensures HasDrained(s, tenant, more, now, weather, ShopOf(store, client), nowSynced, nowFailed)
    ensures Stops(s, more, now, weather) <==> |more| == MAX_ITERATIONS || consumed == 0
  {
    ghost var t := ShopOf(store, client);
    var batchSynced, batchFailed;
    ghost var keys;
    batchSynced, batchFailed, consumed, keys := FetchAndSync(store, client, tenant, now, weather(iter));
    DrainsOnePage(s, tenant, pages, keys, now, weather, t, synced, failed,
                  ShopOf(store, client), batchSynced, batchFailed, consumed);
    nowSynced, nowFailed, more := synced + batchSynced, failed + batchFailed, pages + [keys];
  }

  /** The loop: page after page, until nothing of one was consumed or 500 were read. */
  method DrainPages(store: ProductStore, client: Client, tenant: Uuid, now: Time, weather: nat -> Key -> Weather)
    returns (synced: nat, failed: nat, ghost pages: seq<seq<Key>>)
    requires WellFormed(ShopOf(store, client))
    modifies store`rows, client
    ensures |pages| <= MAX_ITERATIONS && Stops(old(ShopOf(store, client)), pages, now, weather)
    ensures WentOn(old(ShopOf(store, client)), pages, now, weather)
    ensures HasDrained(old(ShopOf(store, client)), tenant, pages, now, weather, ShopOf(store, client), synced, failed)
  {
    ghost var s := ShopOf(store, client);
    synced, failed, pages := 0, 0, [];
    var iter := 0;
    while iter < MAX_ITERATIONS
      invariant |pages| == iter <= MAX_ITERATIONS
      invariant WentOn(s, pages, now, weather)
      invariant 0 < iter < MAX_ITERATIONS ==> !Stops(s, pages, now, weather)
      invariant HasDrained(s, tenant, pages, now, weather, ShopOf(store, client), synced, failed)
    {
      var consumed;
      ghost var before := pages;
      synced, failed, consumed, pages := DrainOne(store, client, tenant, now, weather, iter, synced, failed, s, pages);
      WentOnOneMore(s, before, pages, now, weather);
      if consumed == 0 {
        break;
      }
      iter := iter + 1;
    }
  }

  /** The pages so far, each read in order from what was pending, led to t with these counts. */
  ghost predicate HasDrained(s: Shop, tenant: Uuid, pages: seq<seq<Key>>, now: Time, weather: nat -> Key -> Weather,
                             t: Shop, synced: nat, failed: nat)
  {
    && PagesAreRead(s, tenant, pages, now, weather) && PagesAreNewest(s, tenant, pages, now, weather)
    && t == AfterPages(s, pages, now, weather) && WellFormed(s) && WellFormed(t)
    && synced == PagesCounts(s, pages, now, weather).synced && failed == PagesCounts(s, pages, now, weather).failed
  }

  lemma WentOnOneMore(s: Shop, pages: seq<seq<Key>>, more: seq<seq<Key>>, now: Time, weather: nat -> Key -> Weather)
    requires WentOn(s, pages, now, weather) && (pages != [] ==> !Stops(s, pages, now, weather))
    requires |more| == |pages| + 1 && more[..|pages|] == pages
    ensures WentOn(s, more, now, weather)
  {
    forall n | 0 < n < |more|
      ensures !Stops(s, more[..n], now, weather)
    {
      assert more[..n] == pages[..n];
      assert n == |pages| ==> pages[..n] == pages;
    }
  }

  lemma DrainsOnePage(s: Shop, tenant: Uuid, pages: seq<seq<Key>>, page: seq<Key>, now: Time,
                      weather: nat -> Key -> Weather,
                      t: Shop, synced: nat, failed: nat, u: Shop, batchSynced: nat, batchFailed: nat, consumed: nat)
    requires HasDrained(s, tenant, pages, now, weather, t, synced, failed)
    requires IsPageOf(t, tenant, page) && IsNewest(PendingKeys(t.rows, tenant), KeySet(page), SeenIn(t.rows))
    requires IsSorted(page, SeenIn(t.rows))
    requires u == AfterPage(t, page, now, weather(|pages|))
    requires Tallies(PageCounts(t, page, now, weather(|pages|)), batchSynced, batchFailed, consumed)
    ensures HasDrained(s, tenant, pages + [page], now, weather, u, synced + batchSynced, failed + batchFailed)
    ensures Stops(s, pages + [page], now, weather) <==> |pages + [page]| == MAX_ITERATIONS || consumed == 0
  {
    OneMorePage(s, tenant, pages, page, now, weather);
    OneMoreNewest(s, tenant, pages, page, now, weather);
  }

  lemma OneMorePage(s: Shop, tenant: Uuid, pages: seq<seq<Key>>, page: seq<Key>, now: Time,
                    weather: nat -> Key -> Weather)
    requires WellFormed(s) && PagesAreRead(s, tenant, pages, now, weather)
    requires IsPageOf(AfterPages(s, pages, now, weather), tenant, page)
    ensures var t := AfterPages(s, pages, now, weather);
            var more := pages + [page];
            var w := weather(|pages|);
            && PagesAreRead(s, tenant, more, now, weather)
            && AfterPages(s, more, now, weather) == AfterPage(t, page, now, w) && WellFormed(AfterPage(t, page, now, w))
            && PagesCounts(s, more, now, weather)
               == Plus(PagesCounts(s, pages, now, weather), PageCounts(t, page, now, w))
            && (Stops(s, more, now, weather) <==>
                |more| == MAX_ITERATIONS
                || PageCounts(t, page, now, w).synced + PageCounts(t, page, now, w).skipped == 0)
  {
    assert (pages + [page])[..|pages|] == pages;
    PagesKeepWellFormed(s, pages + [page], now, weather);
  }

  lemma OneMoreNewest(s: Shop, tenant: Uuid, pages: seq<seq<Key>>, page: seq<Key>, now: Time,
                      weather: nat -> Key -> Weather)
    requires PagesAreNewest(s, tenant, pages, now, weather)
    requires var t := AfterPages(s, pages, now, weather);
             IsNewest(PendingKeys(t.rows, tenant), KeySet(page), SeenIn(t.rows)) && IsSorted(page, SeenIn(t.rows))
    ensures PagesAreNewest(s, tenant, pages + [page], now, weather)
  {
    assert (pages + [page])[..|pages|] == pages;
  }

  lemma FairOrderedDrain(s: Shop, tenant: Uuid, pages: seq<seq<Key>>, now: Time, weather: nat -> Key -> Weather)
    requires WellFormed(s) && IsFair(weather)
    requires PagesAreRead(s, tenant, pages, now, weather) && PagesAreNewest(s, tenant, pages, now, weather)
    requires |pages| <= MAX_ITERATIONS && Stops(s, pages, now, weather)
    ensures IsOrderedOutcome(s.rows, AfterPages(s, pages, now, weather).rows, tenant)
  {
    FairPagesDrain(s, tenant, pages, now, weather);
    FairPagesAreOrdered(s, tenant, pages, now, weather);
    if |pages| < MAX_ITERATIONS {
      StopsEmpty(s, tenant, pages, now, weather);
    }
    OrderedResult(UnreadyKeys(s.rows, tenant), ReadyKeys(s.rows, tenant), KeySets(pages), SeenIn(s.rows));
    PackedResult(UnreadyKeys(s.rows, tenant), ReadyKeys(s.rows, tenant), KeySets(pages), SeenIn(s.rows));
  }

  // ---------------------------------------------------------------- the outcome in terms of columns

  lemma PageIsFilled(rows: map<Key, Product>, tenant: Uuid, page: seq<Key>)
    requires Distinct(page) && IsPage(PendingKeys(rows, tenant), KeySet(page))
    ensures forall k :: k in page ==> k in PendingKeys(rows, tenant)
    ensures |page| == 200 || (|page| < 200 && forall k :: k in PendingKeys(rows, tenant) ==> k in page)
  {
    var pending := PendingKeys(rows, tenant);
    DistinctSize(page);
    assert forall k :: k in page <==> k in KeySet(page);
    assert pending == KeySet(page) + (pending - KeySet(page));
    UnionSize(KeySet(page), pending - KeySet(page));
  }

  lemma PageIsInOrder(rows: map<Key, Product>, tenant: Uuid, page: seq<Key>)
    requires IsNewest(PendingKeys(rows, tenant), KeySet(page), SeenIn(rows)) && IsSorted(page, SeenIn(rows))
    ensures forall i, j :: 0 <= i < j < |page| && page[i] in rows && page[j] in rows ==>
                             rows[page[j]].info.lastSeenAt <= rows[page[i]].info.lastSeenAt
    ensures forall k, l :: k in page && k in rows && l in PendingKeys(rows, tenant) && l !in page ==>
                             rows[l].info.lastSeenAt <= rows[k].info.lastSeenAt
  {
    forall i, j | 0 <= i < j < |page| && page[i] in rows && page[j] in rows
      ensures rows[page[j]].info.lastSeenAt <= rows[page[i]].info.lastSeenAt
    {
      assert SeenAt(SeenIn(rows), page[j]) <= SeenAt(SeenIn(rows), page[i]);
    }
    forall k, l | k in page && k in rows && l in PendingKeys(rows, tenant) && l !in page
      ensures rows[l].info.lastSeenAt <= rows[k].info.lastSeenAt
    {
      assert k in KeySet(page) && l !in KeySet(page);
      assert SeenAt(SeenIn(rows), l) <= SeenAt(SeenIn(rows), k);
    }
  }

  lemma PageIsReadFrom(rows: map<Key, Product>, tenant: Uuid, page: seq<Key>)
    requires Distinct(page) && IsNewest(PendingKeys(rows, tenant), KeySet(page), SeenIn(rows))
    requires IsSorted(page, SeenIn(rows))
    ensures IsReadFrom(rows, tenant, page)
  {
    PageIsFilled(rows, tenant, page);
    PageIsInOrder(rows, tenant, page);
  }

  lemma {:induction false} ReadPrefix(s: Shop, tenant: Uuid, pages: seq<seq<Key>>, n: nat, now: Time,
                                      weather: nat -> Key -> Weather)
    requires PagesAreRead(s, tenant, pages, now, weather) && n < |pages|
    ensures PagesAreRead(s, tenant, pages[..n], now, weather)
    ensures IsPageOf(AfterPages(s, pages[..n], now, weather), tenant, pages[n])
  {
    if n < |pages| - 1 {
      assert pages[..|pages| - 1][..n] == pages[..n];
      ReadPrefix(s, tenant, pages[..|pages| - 1], n, now, weather);
    }
  }

  lemma {:induction false} NewestPrefix(s: Shop, tenant: Uuid, pages: seq<seq<Key>>, n: nat, now: Time,
                                        weather: nat -> Key -> Weather)
    requires PagesAreNewest(s, tenant, pages, now, weather) && n < |pages|
    ensures var t := AfterPages(s, pages[..n], now, weather);
            && IsNewest(PendingKeys(t.rows, tenant), KeySet(pages[n]), SeenIn(t.rows))
            && IsSorted(pages[n], SeenIn(t.rows))
  {
    if n < |pages| - 1 {
      assert pages[..|pages| - 1][..n] == pages[..n];
      NewestPrefix(s, tenant, pages[..|pages| - 1], n, now, weather);
    }
  }

  lemma PagesAreReadFrom(s: Shop, tenant: Uuid, pages: seq<seq<Key>>, now: Time, weather: nat -> Key -> Weather)
    requires PagesAreRead(s, tenant, pages, now, weather) && PagesAreNewest(s, tenant, pages, now, weather)
    ensures AllReadFrom(s, tenant, pages, now, weather)
  {
    forall n | 0 <= n < |pages|
      ensures IsReadFrom(AfterPages(s, pages[..n], now, weather).rows, tenant, pages[n])
    {
      ReadPrefix(s, tenant, pages, n, now, weather);
      NewestPrefix(s, tenant, pages, n, now, weather);
      PageIsReadFrom(AfterPages(s, pages[..n], now, weather).rows, tenant, pages[n]);
    }
  }

  /** Whatever the weather. */
  lemma PagesMarkSendable(s: Shop, tenant: Uuid, pages: seq<seq<Key>>, now: Time, weather: nat -> Key -> Weather)
    requires WellFormed(s) && PagesAreRead(s, tenant, pages, now, weather)
    ensures MarksOnlySendable(s.rows, AfterPages(s, pages, now, weather).rows, tenant, now)
  {
    var t := AfterPages(s, pages, now, weather);
    PagesOnlyMark(s, pages, now, weather);
    forall k | k in s.rows && t.rows[k] != s.rows[k]
      ensures k.tenant == tenant && IsSendable(s.rows[k]) && t.rows[k] == s.rows[k].(syncedAt := Some(now))
    {
      assert IsMaybeMarked(s.rows[k], t.rows[k], now);
      if k.tenant != tenant {
        PagesKeepOthers(s, tenant, pages, now, weather, k);
      }
    }
  }

  lemma SendableAreReady(rows: map<Key, Product>, tenant: Uuid)
    ensures SendableKeys(rows, tenant) == ReadyKeys(rows, tenant)
    ensures UnsendableKeys(rows, tenant) == UnreadyKeys(rows, tenant)
  {
  }

  lemma IsReadyKey(rows: map<Key, Product>, tenant: Uuid, k: Key)
    ensures k in ReadyKeys(rows, tenant) <==> k in rows && k.tenant == tenant && IsSendable(rows[k])
  {
  }

  /** The rows that leave the ready ones are those that were marked. */
  lemma TakenAreMarked(before: map<Key, Product>, after: map<Key, Product>, tenant: Uuid, now: Time)
    requires MarksOnlySendable(before, after, tenant, now)
    ensures ChangedKeys(before, after) == ReadyKeys(before, tenant) - ReadyKeys(after, tenant)
    ensures ReadyKeys(after, tenant) <= ReadyKeys(before, tenant)
  {
    forall k | k in before || k in after
      ensures k in ChangedKeys(before, after) <==> k in ReadyKeys(before, tenant) - ReadyKeys(after, tenant)
      ensures k in ReadyKeys(after, tenant) ==> k in ReadyKeys(before, tenant)
    {
      IsReadyKey(before, tenant, k);
      IsReadyKey(after, tenant, k);
    }
  }

  lemma TakenSize(ready: set<Key>, left: set<Key>)
    requires left <= ready
    ensures |ready - left| == |ready| - |left|
  {
    assert ready == left + (ready - left);
    UnionSize(left, ready - left);
  }

  lemma NothingPending(rows: map<Key, Product>, tenant: Uuid)
    requires PendingKeys(rows, tenant) == {}
    ensures ReadyKeys(rows, tenant) == {}
  {
    PendingSplits(rows, tenant);
  }

  lemma FullDrainLeft(before: map<Key, Product>, after: map<Key, Product>, tenant: Uuid, pages: seq<set<Key>>,
                      counts: Counts)
    requires DrainsTo(before, after, tenant, pages, counts) && |pages| == 500
    ensures |ReadyKeys(before, tenant)| <= 500 * Progress(|UnreadyKeys(before, tenant)|) ==>
              ReadyKeys(after, tenant) == {}
  {
    DrainLeavesAtMost(UnreadyKeys(before, tenant), ReadyKeys(before, tenant), pages);
  }

  /** What 500 pages, or fewer and an empty one, leave in fair weather. */
  lemma FairLeft(s: Shop, tenant: Uuid, pages: seq<seq<Key>>, now: Time, weather: nat -> Key -> Weather)
    requires WellFormed(s) && IsFair(weather) && PagesAreRead(s, tenant, pages, now, weather)
    requires |pages| <= 500 && Stops(s, pages, now, weather)
    ensures var before, after := s.rows, AfterPages(s, pages, now, weather).rows;
            var counts := PagesCounts(s, pages, now, weather);
            && counts.failed == 0 && counts.synced == |ReadyKeys(before, tenant)| - |ReadyKeys(after, tenant)|
            && (|ReadyKeys(before, tenant)| <= 500 * Progress(|UnreadyKeys(before, tenant)|) ==>
                  ReadyKeys(after, tenant) == {})
  {
    FairPagesDrain(s, tenant, pages, now, weather);
    if |pages| == 500 {
      FullDrainLeft(s.rows, AfterPages(s, pages, now, weather).rows, tenant, KeySets(pages),
                    PagesCounts(s, pages, now, weather));
    } else {
      StopsEmpty(s, tenant, pages, now, weather);
      NothingPending(AfterPages(s, pages, now, weather).rows, tenant);
    }
  }

  lemma OutcomeInNumbers(before: map<Key, Product>, after: map<Key, Product>, tenant: Uuid, now: Time, synced: nat,
                         fetches: nat)
    requires MarksOnlySendable(before, after, tenant, now)
    requires synced == |ReadyKeys(before, tenant)| - |ReadyKeys(after, tenant)|
    requires |ReadyKeys(before, tenant)| <= 500 * Progress(|UnreadyKeys(before, tenant)|) ==>
               ReadyKeys(after, tenant) == {}
    requires |UnreadyKeys(before, tenant)| > 0 ==> fetches == 500
    requires |UnreadyKeys(before, tenant)| == 0 ==> fetches == Min(500, (|ReadyKeys(before, tenant)| + 199) / 200 + 1)
    ensures IsFairOutcome(before, after, tenant, synced, 0, fetches)
  {
    SendableAreReady(before, tenant);
    TakenAreMarked(before, after, tenant, now);
    TakenSize(ReadyKeys(before, tenant), ReadyKeys(after, tenant));
  }

  /** What a drain that has stopped achieves in fair weather. */
  lemma FairDrain(s: Shop, tenant: Uuid, pages: seq<seq<Key>>, now: Time, weather: nat -> Key -> Weather)
    requires WellFormed(s) && IsFair(weather) && PagesAreRead(s, tenant, pages, now, weather)
    requires |pages| <= 500 && Stops(s, pages, now, weather) && WentOn(s, pages, now, weather)
    ensures var counts := PagesCounts(s, pages, now, weather);
            IsFairOutcome(s.rows, AfterPages(s, pages, now, weather).rows, tenant, counts.synced, counts.failed,
                          |pages|)
  {
    FairLeft(s, tenant, pages, now, weather);
    PagesMarkSendable(s, tenant, pages, now, weather);
    FetchesInNumbers(s, tenant, pages, now, weather);
    OutcomeInNumbers(s.rows, AfterPages(s, pages, now, weather).rows, tenant, now,
                     PagesCounts(s, pages, now, weather).synced, |pages|);
  }

  /** Without unready rows, what is pending after n pages in fair weather is what 200 rows a page leave. */
  lemma FairPending(s: Shop, tenant: Uuid, pages: seq<seq<Key>>, now: Time, weather: nat -> Key -> Weather)
    requires WellFormed(s) && IsFair(weather) && PagesAreRead(s, tenant, pages, now, weather)
    requires UnreadyKeys(s.rows, tenant) == {}
    ensures |PendingKeys(AfterPages(s, pages, now, weather).rows, tenant)|
         == AtMost(|ReadyKeys(s.rows, tenant)| - 200 * |pages|)
  {
    FairPagesDrain(s, tenant, pages, now, weather);
    UnhinderedDrain(ReadyKeys(s.rows, tenant), KeySets(pages));
    PendingSplits(AfterPages(s, pages, now, weather).rows, tenant);
  }

  /** A page in fair weather holds 200 pending rows or all of them, and consumes them all. */
  lemma FairPageSize(t: Shop, tenant: Uuid, page: seq<Key>, now: Time, w: Key -> Weather)
    requires WellFormed(t) && IsPageOf(t, tenant, page) && forall k :: w(k) == FAIR
    ensures |page| == Min(200, |PendingKeys(t.rows, tenant)|)
    ensures PageCounts(t, page, now, w).synced + PageCounts(t, page, now, w).skipped == |page|
  {
    DistinctSize(page);
    FairPage(t, tenant, page, now, w);
  }

  /** Without unready rows, a page holds 200 of the ready ones, or what the pages before it have left. */
  lemma FairFetch(s: Shop, tenant: Uuid, front: seq<seq<Key>>, page: seq<Key>, now: Time,
                  weather: nat -> Key -> Weather)
    requires WellFormed(s) && IsFair(weather) && PagesAreRead(s, tenant, front, now, weather)
    requires IsPageOf(AfterPages(s, front, now, weather), tenant, page) && UnreadyKeys(s.rows, tenant) == {}
    ensures |page| == Min(200, AtMost(|ReadyKeys(s.rows, tenant)| - 200 * |front|))
    ensures Stops(s, front + [page], now, weather) <==> |front| + 1 == MAX_ITERATIONS || page == []
  {
    PagesKeepWellFormed(s, front, now, weather);
    FairPending(s, tenant, front, now, weather);
    FairPageSize(AfterPages(s, front, now, weather), tenant, page, now, weather(|front|));
    OneMorePage(s, tenant, front, page, now, weather);
  }

  /** The same of the last page of a drain. */
  lemma LastFairFetch(s: Shop, tenant: Uuid, pages: seq<seq<Key>>, now: Time, weather: nat -> Key -> Weather)
    requires WellFormed(s) && IsFair(weather) && PagesAreRead(s, tenant, pages, now, weather) && pages != []
    requires UnreadyKeys(s.rows, tenant) == {}
    ensures |pages[|pages| - 1]| == Min(200, AtMost(|ReadyKeys(s.rows, tenant)| - 200 * (|pages| - 1)))
    ensures Stops(s, pages, now, weather) <==> |pages| == MAX_ITERATIONS || pages[|pages| - 1] == []
  {
    var n := |pages| - 1;
    assert pages == pages[..n] + [pages[n]];
    FairFetch(s, tenant, pages[..n], pages[n], now, weather);
  }

  /** How many pages are read in fair weather. */
  lemma FetchesInNumbers(s: Shop, tenant: Uuid, pages: seq<seq<Key>>, now: Time, weather: nat -> Key -> Weather)
    requires WellFormed(s) && IsFair(weather) && PagesAreRead(s, tenant, pages, now, weather)
    requires |pages| <= 500 && Stops(s, pages, now, weather) && WentOn(s, pages, now, weather)
    ensures |UnreadyKeys(s.rows, tenant)| > 0 ==> |pages| == 500
    ensures |UnreadyKeys(s.rows, tenant)| == 0 ==> |pages| == Min(500, (|ReadyKeys(s.rows, tenant)| + 199) / 200 + 1)
  {
    if |pages| < 500 {
      StopsEmpty(s, tenant, pages, now, weather);
    }
    if UnreadyKeys(s.rows, tenant) == {} {
      var n := |pages| - 1;
      LastFairFetch(s, tenant, pages, now, weather);
      if n > 0 {
        LastFairFetch(s, tenant, pages[..n], now, weather);
        assert !Stops(s, pages[..n], now, weather);
      }
    }
  }

  /** In fair weather every product on a page is consumed, so the drain stops only at an empty page. */
  lemma StopsEmpty(s: Shop, tenant: Uuid, pages: seq<seq<Key>>, now: Time, weather: nat -> Key -> Weather)
    requires WellFormed(s) && IsFair(weather) && PagesAreRead(s, tenant, pages, now, weather)
    requires |pages| < MAX_ITERATIONS && Stops(s, pages, now, weather)
    ensures PendingKeys(AfterPages(s, pages, now, weather).rows, tenant) == {}
    ensures UnreadyKeys(s.rows, tenant) == {}
  {
    var n := |pages| - 1;
    var t := AfterPages(s, pages[..n], now, weather);
    FairPagesDrain(s, tenant, pages[..n], now, weather);
    PagesKeepWellFormed(s, pages[..n], now, weather);
    FairPage(t, tenant, pages[n], now, weather(n));
    assert pages[n] == [] && KeySet(pages[n]) == {};
    assert PendingKeys(t.rows, tenant) == {};
  }
}
