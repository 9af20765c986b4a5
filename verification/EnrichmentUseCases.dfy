/** The enrichment use cases over their stores: the source cascade, batches, on-demand runs, rejections. */
module EnrichmentUseCases {
  import opened Prelude
  import opened Enrichment
  import opened EnrichmentRuns
  import opened EnrichmentBatches
  import Relevance

  const PAGE_SIZE := 100
  const DEFAULT_LIMIT := 50
  const MAX_ON_DEMAND := 100

  /** The resolution table. */
  class ResolutionStore {
    var rows: map<Id, Resolution>

    constructor ()
      ensures rows == map[]
    {
      rows := map[];
    }

    /** INSERT ... ON CONFLICT (product_id) DO UPDATE, which leaves the rejected list alone. */
    method Save(id: Id, row: Resolution)
      modifies this
      ensures rows == old(rows)[id := row.(rejected := RejectedOf(old(rows), id))]
    {
      rows := rows[id := row.(rejected := if id in rows then rows[id].rejected else [])];
    }

    method RejectImage(id: Id, url: string)
      modifies this
      ensures rows == RejectRow(old(rows), id, url)
      ensures var listed := if id in old(rows) then old(rows)[id].rejected else [];
              && id in rows && rows == old(rows)[id := rows[id]] && rows[id].rawUrl == ""
              && rows[id].rejected == if url in listed then listed else listed + [url]
    {
      if id !in rows {
        rows := rows[id := Resolution("", "", Manual, "", Cdn("", ""), Passthrough, 0, [url])];
        return;
      }
      var rejected := rows[id].rejected;
      if url !in rejected {
        rejected := rejected + [url];
      }
      rows := rows[id := rows[id].(rawUrl := "", rejected := rejected)];
    }
  }

  /** The remote catalogue: the cards it shows, and the queue of what needs enrichment. */
  class CatalogClient {
    var cards: map<Id, Card>
    const queue: seq<Item>

    constructor (cards: map<Id, Card>, queue: seq<Item>)
      ensures this.cards == cards && this.queue == queue
    {
      this.cards, this.queue := cards, queue;
    }

    /** ListNeedingEnrichmentPage. */
    method ListPage(limit: nat, offset: nat) returns (page: seq<Item>)
      ensures page == queue[Min(offset, |queue|)..Min(offset + limit, |queue|)]
    {
      var from := if offset < |queue| then offset else |queue|;
      var to := if offset + limit < |queue| then offset + limit else |queue|;
      page := queue[from..to];
    }

    method UpdateImage(id: Id, image: string, found: Found)
      modifies this
      ensures cards == old(cards)[id := UpdatedCard(CardOf(old(cards), id), image, found)]
    {
      var card := CardOf(cards, id).(image := image);
      if found.gtin != "" {
        card := card.(gtin := found.gtin);
      }
      if found.ean != "" {
        card := card.(ean := found.ean);
      }
      if found.brand != "" {
        card := card.(brand := found.brand);
      }
      if found.category != "" {
        card := card.(category := found.category);
      }
      cards := cards[id := card];
    }

    method ClearImage(id: Id)
      modifies this
      ensures cards == old(cards)[id := CardOf(old(cards), id).(image := "")]
    {
      cards := cards[id := CardOf(cards, id).(image := "")];
    }
  }

  function WorldOf(store: ResolutionStore, client: CatalogClient): World
    reads store, client
  {
    World(store.rows, client.cards)
  }

  // ---------------------------------------------------------------- one item

  /** isRejectedURL: a scan of the list. */
  method IsRejected(url: string, rejected: seq<string>) returns (found: bool)
    ensures found <==> url in rejected
  {
    for i := 0 to |rejected|
      invariant url !in rejected[..i]
    {
      if rejected[i] == url {
        return true;
      }
    }
    return false;
  }

  /** The cascade: the first source with an acceptable answer, in the given order. */
  method FindProductData(item: Item, sources: seq<SourceName>, ask: nat -> Query -> Answer, rejected: seq<string>)
    returns (data: Option<Found>)
    ensures data == FirstAcceptable(item, sources, ask, rejected, 0)
  {
    var genericBulk := IsGenericBulk(item);
    for i := 0 to |sources|
      invariant FirstAcceptable(item, sources, ask, rejected, 0) == FirstAcceptable(item, sources, ask, rejected, i)
    {
      if genericBulk && sources[i] != DALLE {
        continue;
      }
      var answer := ask(i)(QueryFor(item));
      if !answer.Data? || answer.found.image == "" {
        continue;
      }
      var isRejected := IsRejected(answer.found.image, rejected);
      if isRejected {
        continue;
      }
      if answer.found.source != DALLE && answer.found.name != "" {
        var _, relevant := Relevance.RelevanceScore(item.name, answer.found.name);
        if !relevant {
          continue;
        }
      }
      return Some(answer.found);
    }
    return None;
  }

  /** processItem: find, enhance, upload, save, update the card; the first step that fails ends it. */
  method ProcessItem(store: ResolutionStore, client: CatalogClient, item: Item, sources: seq<SourceName>, c: Conditions)
    returns (verdict: Verdict)
    modifies store, client
    ensures Effect(WorldOf(store, client), verdict) == Visit(old(WorldOf(store, client)), item, sources, true, c)
  {
    if !c.rejectedAreRead {
      return Failed(FindingData);
    }
    var data := FindProductData(item, sources, c.ask, RejectedOf(store.rows, item.id));
    if data.None? {
      return Failed(NoData);
    }
    var found := data.value;
    var key := ResolveKey(item);
    if found.gtin != "" {
      key := found.gtin;
    } else if found.ean != "" {
      key := found.ean;
    }
    if c.enhanced.None? {
      return Failed(Enhancing);
    }
    var enhancer, cost := Passthrough, c.enhanced.value;
    if found.source == DALLE {
      enhancer, cost := Generated, 4;
    } else if cost > 0 {
      enhancer := Replicate;
    }
    if c.uploaded.None? {
      return Failed(Uploading);
    }
    if !c.saved {
      return Failed(Saving);
    }
    store.Save(item.id, Resolution(key, found.ean, found.source, found.image, c.uploaded.value, enhancer, cost, []));
    if !c.cardIsUpdated {
      return Failed(UpdatingCard);
    }
    client.UpdateImage(item.id, c.uploaded.value.url, found);
    return Processed(cost);
  }

  /** One turn of either loop: skip check, then processItem, then the counts. */
  method VisitItem(store: ResolutionStore, client: CatalogClient, item: Item, g: Setting, n: nat, tally: Tally)
    returns (after: Tally)
    modifies store, client
    ensures var e := Visit(old(WorldOf(store, client)), item, g.sources, g.force, g.conditions(n));
            WorldOf(store, client) == e.world && after == Counted(tally, item.id, e.verdict)
  {
    if !g.force {
      if !g.conditions(n).rowIsRead {
        return tally.(failed := tally.failed + 1, errors := tally.errors + [Error(item.id, SkipCheck)]);
      }
      if IsResolved(store.rows, item.id) {
        return tally.(skipped := tally.skipped + 1);
      }
    }
    var verdict := ProcessItem(store, client, item, g.sources, g.conditions(n));
    match verdict {
      case Processed(cost) =>
        return tally.(processed := tally.processed + 1, totalCost := tally.totalCost + cost);
      case Failed(failure) =>
        return tally.(failed := tally.failed + 1, errors := tally.errors + [Error(item.id, failure)]);
    }
  }

  // ---------------------------------------------------------------- runs

  datatype BatchError = ListingFailed(offset: nat) | TooManyIds | FetchingFailed

  /** The next item of the queue. */
  method VisitNext(store: ResolutionStore, client: CatalogClient, item: Item, n: nat, limit: nat, g: Setting,
                   tally: Tally, ghost w: World)
    returns (after: Tally)
    requires n < |client.queue| && item == client.queue[n] && tally.processed < limit
    requires HasVisited(w, client.queue, g, limit, n, Progress(WorldOf(store, client), tally))
    modifies store, client
    ensures HasVisited(w, client.queue, g, limit, n + 1, Progress(WorldOf(store, client), after))
  {
    ghost var p := Progress(WorldOf(store, client), tally);
    after := VisitItem(store, client, item, g, n, tally);
    VisitsOneMore(w, client.queue, g, limit, n, p, Progress(WorldOf(store, client), after));
  }

  /** The items of one page, until the limit is reached. */
  method VisitPage(store: ResolutionStore, client: CatalogClient, page: seq<Item>, offset: nat, limit: nat, g: Setting,
                   tally: Tally, ghost w: World)
    returns (after: Tally, ghost n: nat)
    requires offset + |page| <= |client.queue| && forall i :: 0 <= i < |page| ==> page[i] == client.queue[offset + i]
    requires HasVisited(w, client.queue, g, limit, offset, Progress(WorldOf(store, client), tally))
    modifies store, client
    ensures offset <= n <= offset + |page|
    ensures HasVisited(w, client.queue, g, limit, n, Progress(WorldOf(store, client), after))
    ensures n < offset + |page| ==> after.processed == limit
  {
    var i := 0;
    after, n := tally, offset;
    while i < |page| && after.processed < limit
      invariant i <= |page| && n == offset + i
      invariant HasVisited(w, client.queue, g, limit, n, Progress(WorldOf(store, client), after))
    {
      after := VisitNext(store, client, page[i], offset + i, limit, g, after, w);
      i, n := i + 1, n + 1;
    }
  }

  /** Lists the page at the offset and visits it; a page that is not full is the last. */
  method VisitNextPage(store: ResolutionStore, client: CatalogClient, offset: nat, limit: nat, g: Setting,
                       tally: Tally, ghost w: World)
    returns (after: Tally, length: nat, ghost n: nat)
    requires HasVisited(w, client.queue, g, limit, offset, Progress(WorldOf(store, client), tally))
    modifies store, client
    ensures length == Min(PAGE_SIZE, |client.queue| - offset) && offset <= n <= offset + length
    ensures HasVisited(w, client.queue, g, limit, n, Progress(WorldOf(store, client), after))
    ensures n < offset + length ==> after.processed == limit
  {
    var page := client.ListPage(PAGE_SIZE, offset);
    if |page| == 0 {
      return tally, 0, offset;
    }
    length := |page|;
    after, n := VisitPage(store, client, page, offset, limit, g, tally, w);
  }

  /**
   executeBatch. However the queue falls into pages, the run visits its items in order, each once,
   and stops exactly where a run over the plain queue does; when a page cannot be listed, it gives
   up, having visited the pages before it.
   */
  method ExecuteBatch(store: ResolutionStore, client: CatalogClient, requested: int, g: Setting, listed: nat -> bool)
    returns (r: Result<Tally, BatchError>, ghost n: nat)
    modifies store, client
    ensures r.Ok? ==>
              IsOutcome(old(WorldOf(store, client)), client.queue, g, if requested > 0 then requested else 50, n,
                        Progress(WorldOf(store, client), r.value))
    ensures r.Err? ==>
              && r.error == ListingFailed(n) && n % 100 == 0 && !listed(n / 100) && n <= |client.queue|
              && WorldOf(store, client) == VisitAll(old(WorldOf(store, client)), client.queue[..n], g).world
  {
    ghost var w := WorldOf(store, client);
    var limit := requested;
    if limit <= 0 {
      limit := DEFAULT_LIMIT;
    }
    var tally, offset, pages := NO_TALLY, 0, 0;
    n := 0;
    NoneVisited(w, client.queue, g, limit);
    while tally.processed < limit
      invariant offset == pages * PAGE_SIZE
      invariant HasVisited(w, client.queue, g, limit, n, Progress(WorldOf(store, client), tally))
      invariant tally.processed < limit ==> n == offset
      decreases |client.queue| - n
    {
      if !listed(pages) {
        return Err(ListingFailed(offset)), n;
      }
      var length;
      tally, length, n := VisitNextPage(store, client, offset, limit, g, tally, w);
      offset, pages := offset + PAGE_SIZE, pages + 1;
      if length < PAGE_SIZE {
        break;
      }
    }
    HasStopped(w, client.queue, g, limit, n, Progress(WorldOf(store, client), tally));
    return Ok(tally), n;
  }

  /** executeOnDemand: at most 100 products, all of them visited, without a limit. */
  method ExecuteOnDemand(store: ResolutionStore, client: CatalogClient, ids: seq<Id>, g: Setting,
                         fetched: Option<seq<Item>>)
    returns (r: Result<Tally, BatchError>)
    modifies store, client
    ensures r.Ok? <==> |ids| <= 100 && fetched.Some?
    ensures r.Ok? ==>
              VisitAll(old(WorldOf(store, client)), fetched.value, g) == Progress(WorldOf(store, client), r.value)
              && r.value.processed + r.value.skipped + r.value.failed == |fetched.value|
    ensures r.Err? ==> WorldOf(store, client) == old(WorldOf(store, client))
  {
    if |ids| > MAX_ON_DEMAND {
      return Err(TooManyIds);
    }
    if fetched.None? {
      return Err(FetchingFailed);
    }
    ghost var w := WorldOf(store, client);
    var items, tally := fetched.value, NO_TALLY;
    for i := 0 to |items|
      invariant VisitAll(w, items[..i], g) == Progress(WorldOf(store, client), tally)
    {
      OneMoreVisit(w, items, g, i);
      tally := VisitItem(store, client, items[i], g, i, tally);
    }
    assert items[..|items|] == items;
    TallyAddsUp(w, items, g);
    return Ok(tally);
  }

  /** RejectImage: reads the current URL, rejects it, clears the card; needs a product identifier. */
  method RejectImage(store: ResolutionStore, client: CatalogClient, id: Id, c: RejectConditions) returns (ok: bool)
    modifies store, client
    ensures ok <==> id != "" && c.urlIsRead && c.rowIsWritten && c.cardIsCleared
    ensures WorldOf(store, client) == AfterReject(old(WorldOf(store, client)), id, c)
  {
    if id == "" || !c.urlIsRead {
      return false;
    }
    var current := RawUrlOf(store.rows, id);
    if !c.rowIsWritten {
      return false;
    }
    store.RejectImage(id, current);
    if !c.cardIsCleared {
      return false;
    }
    client.ClearImage(id);
    return true;
  }
}
