/**
 The statements of an enrichment visit and of a rejection, one event each, whatever the other processes
 have done since the operation's last statement.
 */
module EnrichmentStatements {
  import opened Prelude
  import opened Enrichment
  import opened EnrichmentRuns
  import opened EnrichmentRaces
  import opened EnrichmentUseCases

  /** GetRejectedURLs and the cascade that uses its answer; without data the visit ends. */
  method LookAndAsk(store: ResolutionStore, client: CatalogClient, item: Item, sources: seq<SourceName>,
                    ask: nat -> Query -> Answer, ghost s: State, ghost u: nat)
    returns (data: Option<Found>, ghost t: State)
    requires s.world == WorldOf(store, client) && u !in s.visitors
    ensures var e := Look(u, item, sources, ask);
            if data.Some? then Enabled(s, e) && t == Next(s, e) && t.visitors[u] == Looking(item, data.value)
            else !Enabled(s, e) && t == s
    ensures t.world == WorldOf(store, client)
  {
    data := FindProductData(item, sources, ask, RejectedOf(store.rows, item.id));
    t := if data.Some? then Next(s, Look(u, item, sources, ask)) else s;
  }

  /** Save of the resolution. */
  method SaveFound(store: ResolutionStore, client: CatalogClient, item: Item, found: Found, enhanced: nat, cdn: Cdn,
                   ghost s: State, ghost u: nat)
    returns (ghost t: State)
    requires s.world == WorldOf(store, client) && u in s.visitors && s.visitors[u] == Looking(item, found)
    modifies store
    ensures Enabled(s, Save(u, enhanced, cdn)) && t == Next(s, Save(u, enhanced, cdn))
    ensures t.world == WorldOf(store, client) && t.visitors[u] == Pushing(item, found, cdn)
  {
    t := Next(s, Save(u, enhanced, cdn));
    store.Save(item.id, NewRow(item, found, enhanced, cdn, []));
  }

  /** The update of the card. */
  method PushCard(store: ResolutionStore, client: CatalogClient, item: Item, found: Found, cdn: Cdn,
                  ghost s: State, ghost u: nat)
    returns (ghost t: State)
    requires s.world == WorldOf(store, client) && u in s.visitors && s.visitors[u] == Pushing(item, found, cdn)
    modifies client
    ensures Enabled(s, Push(u)) && t == Next(s, Push(u)) && t.world == WorldOf(store, client)
  {
    t := Next(s, Push(u));
    client.UpdateImage(item.id, cdn.url, found);
  }

  /** GetCurrentRawURL, once the identifier is known not to be empty. */
  method ReadCurrent(store: ResolutionStore, client: CatalogClient, id: Id, ghost s: State, ghost v: nat)
    returns (url: string, ghost t: State)
    requires s.world == WorldOf(store, client) && v !in s.rejectors && id != ""
    ensures Enabled(s, ReadUrl(v, id)) && t == Next(s, ReadUrl(v, id)) && t.world == WorldOf(store, client)
    ensures t.rejectors[v] == Rejecting(id, url)
  {
    t := Next(s, ReadUrl(v, id));
    url := if id in store.rows then store.rows[id].rawUrl else "";
  }

  /** RejectImage of what was read. */
  method RejectCurrent(store: ResolutionStore, client: CatalogClient, id: Id, url: string, ghost s: State, ghost v: nat)
    returns (ghost t: State)
    requires s.world == WorldOf(store, client) && v in s.rejectors && s.rejectors[v] == Rejecting(id, url)
    modifies store
    ensures Enabled(s, RejectUrl(v)) && t == Next(s, RejectUrl(v)) && t.world == WorldOf(store, client)
    ensures t.rejectors[v] == Clearing(id)
  {
    t := Next(s, RejectUrl(v));
    store.RejectImage(id, url);
  }

  /** The update of the card that clears its image. */
  method ClearCard(store: ResolutionStore, client: CatalogClient, id: Id, ghost s: State, ghost v: nat)
    returns (ghost t: State)
    requires s.world == WorldOf(store, client) && v in s.rejectors && s.rejectors[v] == Clearing(id)
    modifies client
    ensures Enabled(s, Clear(v)) && t == Next(s, Clear(v)) && t.world == WorldOf(store, client)
  {
    t := Next(s, Clear(v));
    client.ClearImage(id);
  }
}
