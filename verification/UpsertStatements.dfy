/**
 The statements of a worker that upserts one observation, one event each. Whatever the other processes
 have done since the worker's last statement, the next one is the event of the interleaved runs.
 */
module UpsertStatements {
  import opened Prelude
  import opened RawProducts
  import opened Products
  import opened Catalogues
  import opened Shops
  import opened UpsertRaces
  import opened UpsertUseCase

  /** The copy in the worker's memory is the object that the code holds. */
  predicate IsCopy(copy: Option<Product>, existing: ScrapedProduct?)
    reads if existing == null then {} else {existing}
  {
    if existing == null then copy == None else copy == Some(existing.Value())
  }

  /** FindByContentHash of an observation that has a title. */
  method FindCopy(store: ProductStore, client: Client, tenant: Uuid, source: Uuid, raw: Raw, now: Time,
                  ghost s: State, ghost u: nat)
    returns (existing: ScrapedProduct?, ghost t: State)
    requires s.shop == ShopOf(store, client) && u !in s.writers && raw.title != ""
    ensures var e := Find(u, tenant, source, raw, now); Enabled(s, e) && t == Next(s, e)
    ensures t.shop == ShopOf(store, client) && u in t.writers
    ensures existing == null || fresh(existing)
    ensures var w := t.writers[u]; w == Reading(tenant, source, raw, now, w.copy) && IsCopy(w.copy, existing)
  {
    t := Next(s, Find(u, tenant, source, raw, now));
    existing := store.FindByContentHash(KeyOf(tenant, source, raw));
  }

  /** The write that follows from a find, and the price record with it. */
  method SaveCopy(store: ProductStore, client: Client, existing: ScrapedProduct?, tenant: Uuid, source: Uuid, raw: Raw,
                  now: Time, ghost s: State, ghost u: nat)
    returns (product: ScrapedProduct, ok: bool, ghost t: State)
    requires s.shop == ShopOf(store, client) && u in s.writers
    requires s.writers[u].Reading? && IsCopy(s.writers[u].copy, existing)
    requires s.writers[u] == Reading(tenant, source, raw, now, s.writers[u].copy)
    modifies store, existing
    ensures product == existing || fresh(product)
    ensures Enabled(s, Save(u)) && t == Next(s, Save(u)) && t.shop == ShopOf(store, client)
    ensures ok <==> UpsertRow(s.shop.rows, InWriter(s.shop, s.writers[u])).Some?
    ensures ok || existing != null <==> u in t.writers
    ensures u in t.writers ==> t.writers[u] == Syncing(product.Value())
  {
    t := Next(s, Save(u));
    if existing != null {
      product := existing;
      ok := Merge(store, existing, raw, now);
    } else {
      product, ok := CreateNew(store, tenant, source, raw, now);
    }
  }

  /** The sync of what was written, or of a product on a page that was read earlier. */
  method SyncTheCopy(store: ProductStore, client: Client, product: ScrapedProduct, now: Time, sync: Option<Weather>,
                     ghost s: State, ghost u: nat)
    returns (ghost t: State)
    requires s.shop == ShopOf(store, client) && u in s.writers && s.writers[u] == Syncing(product.Value())
    modifies store, client, product
    ensures Enabled(s, SyncCopy(u, sync, now)) && t == Next(s, SyncCopy(u, sync, now))
    ensures t.shop == ShopOf(store, client)
    ensures u !in t.writers
  {
    t := Next(s, SyncCopy(u, sync, now));
    TrySyncProduct(store, client, product, now, sync);
  }

  /** FindAll reads each product of a page into memory as its row is. */
  method LoadPage(store: ProductStore, client: Client, tenant: Uuid, ghost s: State, ghost u: nat)
    returns (page: seq<ScrapedProduct>, ghost keys: seq<Key>)
    requires s.shop == ShopOf(store, client) && WellFormed(s.shop) && u !in s.writers
    ensures |keys| == |page|
    ensures forall i :: 0 <= i < |page| ==>
                          && Enabled(s, Load(u, keys[i]))
                          && Next(s, Load(u, keys[i])) == s.(writers := s.writers[u := Syncing(page[i].Value())])
  {
    page, keys := store.FindPending(tenant);
  }
}
