/**
 The upsert use case: compact the batch in place by brand, then create or merge one product after
 another, keeping the price history and syncing what is ready.
 */
module UpsertUseCase {
  import opened Prelude
  import opened RawProducts
  import opened Text
  import opened Products
  import opened Catalogues
  import opened Shops
  import opened UpsertBatches
  import opened DrainBound
  import opened DrainOrder
  import opened PendingSync

  // ---------------------------------------------------------------- the brand filter

  /** The brand, trimmed and in lower case, is one of the excluded ones. */
  predicate IsExcluded(raw: Raw, excluded: seq<string>) {
    exists i :: 0 <= i < |excluded| && Folded(raw.brand) == Folded(excluded[i])
  }

  /** The observations of the other brands, in their order. */
  function Kept(raws: seq<Raw>, excluded: seq<string>): seq<Raw> {
    if raws == [] then []
    else
      var n := |raws| - 1;
      Kept(raws[..n], excluded) + if IsExcluded(raws[n], excluded) then [] else [raws[n]]
  }

  lemma {:induction false} KeptIsShorter(raws: seq<Raw>, excluded: seq<string>)
    ensures |Kept(raws, excluded)| <= |raws|
  {
    if raws != [] {
      KeptIsShorter(raws[..|raws| - 1], excluded);
    }
  }

  lemma {:induction false} NothingExcluded(raws: seq<Raw>)
    ensures Kept(raws, []) == raws
  {
    if raws != [] {
      NothingExcluded(raws[..|raws| - 1]);
    }
  }

  /** The filter keeps exactly the observations of brands that are not excluded. */
  lemma {:induction false} KeptAreNotExcluded(raws: seq<Raw>, excluded: seq<string>)
    ensures forall r :: r in Kept(raws, excluded) <==> r in raws && !IsExcluded(r, excluded)
  {
    if raws != [] {
      var n := |raws| - 1;
      KeptAreNotExcluded(raws[..n], excluded);
      assert raws == raws[..n] + [raws[n]];
    }
  }

  /** The brand is one of the excluded ones, up to case and surrounding spaces. */
  predicate HasExcludedBrand(raw: Raw, excluded: seq<string>) {
    exists i :: 0 <= i < |excluded| && EqualUpToCase(TrimSpace(raw.brand), TrimSpace(excluded[i]))
  }

  /** No observation of an excluded brand is kept, and of Latin brands no other is dropped. */
  lemma DroppedAreExcluded(raws: seq<Raw>, excluded: seq<string>, r: Raw)
    requires r in raws
    ensures HasExcludedBrand(r, excluded) ==> r !in Kept(raws, excluded)
    ensures IsLatin(TrimSpace(r.brand)) && (forall i :: 0 <= i < |excluded| ==> IsLatin(TrimSpace(excluded[i]))) ==>
              (r in Kept(raws, excluded) <==> !HasExcludedBrand(r, excluded))
  {
    KeptAreNotExcluded(raws, excluded);
    forall i | 0 <= i < |excluded|
      ensures EqualUpToCase(TrimSpace(r.brand), TrimSpace(excluded[i])) ==> Folded(r.brand) == Folded(excluded[i])
      ensures IsLatin(TrimSpace(r.brand)) && IsLatin(TrimSpace(excluded[i])) && Folded(r.brand) == Folded(excluded[i])
              ==> EqualUpToCase(TrimSpace(r.brand), TrimSpace(excluded[i]))
    {
      SameBrandIffEqualUpToCase(r.brand, excluded[i]);
    }
  }

  /**
   Compacts the batch inside its own array. No element is overwritten before it is read: the first
   kept places hold the filter of the original batch, and the places after them are untouched.
   */
  method FilterBrands(raws: array<Raw>, excluded: seq<string>) returns (kept: nat)
    modifies raws
    ensures kept <= raws.Length
    ensures raws[..kept] == Kept(old(raws[..]), excluded)
    ensures raws[kept..] == old(raws[kept..])
  {
    if |excluded| == 0 {
      NothingExcluded(raws[..]);
      return raws.Length;
    }
    var normalized: seq<string> := [];
    for i := 0 to |excluded|
      invariant |normalized| == i && forall j :: 0 <= j < i ==> normalized[j] == Folded(excluded[j])
    {
      normalized := normalized + [Folded(excluded[i])];
    }
    kept := 0;
    for i := 0 to raws.Length
      invariant kept <= i
      invariant raws[..kept] == Kept(old(raws[..i]), excluded)
      invariant forall j :: kept <= j < raws.Length ==> raws[j] == old(raws[j])
    {
      var raw := raws[i];
      var brand := Folded(raw.brand);
      var isExcluded := false;
      for j := 0 to |normalized|
        invariant !isExcluded && forall l :: 0 <= l < j ==> brand != Folded(excluded[l])
      {
        if brand == normalized[j] {
          isExcluded := true;
          break;
        }
      }
      assert old(raws[..i + 1])[..i] == old(raws[..i]);
      if !isExcluded {
        raws[kept] := raw;
        kept := kept + 1;
      }
    }
    assert old(raws[..raws.Length]) == old(raws[..]);
  }

  // ---------------------------------------------------------------- the store

  lemma PicksOneMore(keys: seq<Key>, key: Key)
    requires Distinct(keys) && key !in KeySet(keys)
    ensures Distinct(keys + [key]) && KeySet(keys + [key]) == KeySet(keys) + {key}
  {
    assert forall i :: 0 <= i < |keys| ==> keys[i] in KeySet(keys);
  }

  /** The key that was seen last. */
  method PickNewest(rest: set<Key>, seen: map<Key, Time>) returns (newest: Key)
    requires rest != {}
    ensures newest in rest && forall k :: k in rest ==> SeenAt(seen, k) <= SeenAt(seen, newest)
  {
    newest :| newest in rest;
    var others := rest;
    while others != {}
      invariant others <= rest && newest in rest
      invariant forall k :: k in rest - others ==> SeenAt(seen, k) <= SeenAt(seen, newest)
      decreases others
    {
      var k :| k in others;
      if SeenAt(seen, newest) < SeenAt(seen, k) {
        newest := k;
      }
      others := others - {k};
    }
  }

  /** The keys picked so far come before the rest. */
  ghost predicate IsPicked(pending: set<Key>, keys: seq<Key>, rest: set<Key>, seen: map<Key, Time>) {
    && Distinct(keys) && IsSorted(keys, seen)
    && KeySet(keys) !! rest && pending == KeySet(keys) + rest
    && forall k, l :: k in KeySet(keys) && l in rest ==> SeenAt(seen, l) <= SeenAt(seen, k)
  }

  lemma PicksNext(pending: set<Key>, keys: seq<Key>, rest: set<Key>, seen: map<Key, Time>, key: Key)
    requires IsPicked(pending, keys, rest, seen)
    requires key in rest && forall k :: k in rest ==> SeenAt(seen, k) <= SeenAt(seen, key)
    ensures IsPicked(pending, keys + [key], rest - {key}, seen)
  {
    PicksOneMore(keys, key);
    forall i | 0 <= i < |keys|
      ensures SeenAt(seen, key) <= SeenAt(seen, keys[i])
    {
      assert keys[i] in KeySet(keys);
    }
  }

  lemma PickedIsNewest(pending: set<Key>, keys: seq<Key>, rest: set<Key>, seen: map<Key, Time>)
    requires IsPicked(pending, keys, rest, seen) && |keys| <= PAGE_SIZE && (|keys| == PAGE_SIZE || rest == {})
    ensures IsNewest(pending, KeySet(keys), seen)
  {
    DistinctSize(keys);
    UnionSize(KeySet(keys), rest);
  }

  /** The keys that were seen last, latest first, as many as fit on a page. */
  method PickPage(pending: set<Key>, seen: map<Key, Time>) returns (keys: seq<Key>)
    ensures Distinct(keys) && IsSorted(keys, seen) && IsNewest(pending, KeySet(keys), seen)
  {
    var rest := pending;
    keys := [];
    while |keys| < PAGE_SIZE && rest != {}
      invariant |keys| <= PAGE_SIZE && IsPicked(pending, keys, rest, seen)
      decreases |rest|
    {
      var key := PickNewest(rest, seen);
      PicksNext(pending, keys, rest, seen, key);
      keys, rest := keys + [key], rest - {key};
    }
    PickedIsNewest(pending, keys, rest, seen);
  }

  /** The products in memory are those that the rows hold under the keys. */
  predicate Loaded(rows: map<Key, Product>, keys: seq<Key>, page: seq<ScrapedProduct>)
    reads page
  {
    && |keys| == |page|
    && forall i :: 0 <= i < |page| ==> keys[i] in rows && page[i].key == keys[i] && page[i].Value() == rows[keys[i]]
  }

  lemma LoadsOneMore(rows: map<Key, Product>, keys: seq<Key>, i: nat, page: seq<ScrapedProduct>, p: ScrapedProduct)
    requires i < |keys| && Loaded(rows, keys[..i], page)
    requires keys[i] in rows && p.key == keys[i] && p.Value() == rows[keys[i]]
    ensures Loaded(rows, keys[..i + 1], page + [p])
  {
    assert keys[..i + 1] == keys[..i] + [keys[i]];
  }

  class ProductStore {
    var rows: map<Key, Product>
    var history: map<Uuid, seq<int>>
    var nextId: Uuid

    constructor ()
      ensures rows == map[] && history == map[] && nextId == 0
    {
      rows, history, nextId := map[], map[], 0;
    }

    method FindByContentHash(key: Key) returns (p: ScrapedProduct?)
      ensures p == null <==> key !in rows
      ensures p != null ==> fresh(p) && p.Value() == rows[key]
    {
      if key !in rows {
        return null;
      }
      p := new ScrapedProduct(rows[key]);
    }

    /** INSERT ... ON CONFLICT DO UPDATE ... WHERE not blocked and not hidden. */
    method Upsert(p: ScrapedProduct) returns (ok: bool)
      modifies this`rows
      ensures ok <==> UpsertRow(old(rows), p.Value()).Some?
      ensures rows == if ok then UpsertRow(old(rows), p.Value()).value else old(rows)
      ensures ok <==> p.key in old(rows) ==> !old(rows)[p.key].blocked && old(rows)[p.key].hiddenAt.None?
    {
      if p.key !in rows {
        rows := rows[p.key := p.Value()];
        return true;
      }
      var row := rows[p.key];
      if row.blocked || row.hiddenAt.Some? {
        return false;
      }
      rows := rows[p.key := row.(info := Merged(row.info, p.Facts()))];
      return true;
    }

    method SavePriceRecord(id: Uuid, price: int)
      modifies this`history
      ensures history == WithRecord(old(history), id, price)
    {
      history := history[id := HistoryOf(history, id) + [price]];
    }

    /** UPDATE ... WHERE tenant_id and id; marking no row is not an error. */
    method MarkSynced(tenant: Uuid, id: Uuid, now: Time)
      modifies this`rows
      ensures rows == MarkId(old(rows), tenant, id, now)
      ensures rows.Keys == old(rows).Keys
      ensures forall k :: k in rows ==>
                            var row := old(rows)[k];
                            rows[k] == if k.tenant == tenant && row.id == id then row.(syncedAt := Some(now)) else row
    {
      var rest := set k | k in rows && k.tenant == tenant && rows[k].id == id;
      while rest != {}
        invariant rest <= old(rows).Keys && forall k :: k in rest ==> k.tenant == tenant && old(rows)[k].id == id
        invariant rows.Keys == old(rows).Keys
        invariant forall k :: k in rows ==>
                                rows[k] == if k in rest then old(rows)[k] else MarkId(old(rows), tenant, id, now)[k]
        decreases rest
      {
        var k :| k in rest;
        rows, rest := rows[k := rows[k].(syncedAt := Some(now))], rest - {k};
      }
    }

    method NewId() returns (id: Uuid)
      modifies this`nextId
      ensures id == old(nextId) && nextId == old(nextId) + 1
    {
      id := nextId;
      nextId := nextId + 1;
    }

    /** FindAll with page 1 of the pending rows: those seen last, latest first, in memory. */
    method FindPending(tenant: Uuid) returns (page: seq<ScrapedProduct>, ghost keys: seq<Key>)
      requires forall k :: k in rows ==> rows[k].key == k
      ensures Distinct(keys) && IsSorted(keys, SeenIn(rows))
      ensures IsNewest(PendingKeys(rows, tenant), KeySet(keys), SeenIn(rows))
      ensures Loaded(rows, keys, page)
      ensures forall i :: 0 <= i < |page| ==> fresh(page[i])
    {
      var chosen := PickPage(PendingKeys(rows, tenant), SeenIn(rows));
      page, keys := [], chosen;
      for i := 0 to |chosen|
        invariant Loaded(rows, chosen[..i], page)
        invariant forall j :: 0 <= j < |page| ==> fresh(page[j])
      {
        assert chosen[i] in KeySet(chosen);
        var p := new ScrapedProduct(rows[chosen[i]]);
        LoadsOneMore(rows, chosen, i, page, p);
        page := page + [p];
      }
      assert chosen[..|chosen|] == chosen;
    }

    /** SoftDelete, by tenant and identifier: fails on a missing or already hidden row. */
    method SoftDelete(tenant: Uuid, id: Uuid, now: Time) returns (ok: bool)
      modifies this`rows
      ensures ok <==> VisibleById(old(rows), tenant, id) != {}
      ensures rows == HideId(old(rows), tenant, id, now)
      ensures rows.Keys == old(rows).Keys
      ensures forall k :: k in rows ==>
                            var row := old(rows)[k];
                            rows[k] == if k.tenant == tenant && row.id == id && row.hiddenAt.None?
                            then row.(hiddenAt := Some(now)) else row
    {
      var found := VisibleById(rows, tenant, id);
      rows := map k | k in rows :: if k in found then rows[k].(hiddenAt := Some(now)) else rows[k];
      return found != {};
    }

    /** UpdateBlocked: a hidden row can be neither blocked nor unblocked. */
    method UpdateBlocked(tenant: Uuid, id: Uuid, blocked: bool) returns (ok: bool)
      modifies this`rows
      ensures ok <==> VisibleById(old(rows), tenant, id) != {}
      ensures rows == BlockId(old(rows), tenant, id, blocked)
      ensures rows.Keys == old(rows).Keys
      ensures forall k :: k in rows ==>
                            var row := old(rows)[k];
                            rows[k] == if k.tenant == tenant && row.id == id && row.hiddenAt.None?
                            then row.(blocked := blocked) else row
    {
      var found := VisibleById(rows, tenant, id);
      rows := map k | k in rows :: if k in found then rows[k].(blocked := blocked) else rows[k];
      return found != {};
    }
  }

  /** The store and the catalogue together. */
  function ShopOf(store: ProductStore, client: Client): Shop
    reads store, client
  {
    Shop(store.rows, store.history, client.entries, store.nextId)
  }

  // ---------------------------------------------------------------- the use case

  /** trySyncToPIM: syncs the product as it is in memory and marks its row, if a catalogue is configured. */
  method TrySyncProduct(store: ProductStore, client: Client, product: ScrapedProduct, now: Time, sync: Option<Weather>)
    modifies store`rows, client, product
    ensures ShopOf(store, client) == SyncedCopy(old(ShopOf(store, client)), old(product.Value()), now, sync)
  {
    if sync.None? {
      return;
    }
    var markRow, error := client.SyncProduct(product, sync.value, now);
    if markRow {
      store.MarkSynced(product.key.tenant, product.id, now);
    }
  }

  /** Merges an observation into the product that was found, and writes it, whatever its row is by now. */
  method Merge(store: ProductStore, existing: ScrapedProduct, raw: Raw, now: Time) returns (ok: bool)
    modifies store`rows, store`history, existing
    ensures existing.Value() == old(existing.Value()).(info := Observed(old(existing.Facts()), raw, now))
    ensures ok <==> UpsertRow(old(store.rows), existing.Value()).Some?
    ensures forall catalogue: Catalogue ::
              Shop(store.rows, store.history, catalogue, store.nextId)
              == SavedCopy(Shop(old(store.rows), old(store.history), catalogue, store.nextId),
                           Some(old(existing.Value())), existing.Value(), raw)
  {
    ghost var row := existing.Facts();
    var _ := existing.EnrichFields(raw, now);
    assert existing.price == FillPrice(row.price, raw.price);
    if raw.price.Some? && existing.price.Some? && existing.price.value != raw.price.value {
      var oldPrice := existing.price.value;
      existing.UpdatePrice(raw.price.value, now);
      ok := store.Upsert(existing);
      if ok {
        store.SavePriceRecord(existing.id, oldPrice);
      }
    } else {
      existing.TouchLastSeen(now);
      ok := store.Upsert(existing);
    }
  }

  /** Creates a product that was not found, and writes it, even if it meets a row by now. */
  method CreateNew(store: ProductStore, tenant: Uuid, source: Uuid, raw: Raw, now: Time)
    returns (product: ScrapedProduct, ok: bool)
    modifies store`rows, store`nextId
    ensures fresh(product) && product.Value() == NewProduct(old(store.nextId), tenant, source, raw, now)
    ensures ok <==> UpsertRow(old(store.rows), product.Value()).Some?
    ensures forall catalogue: Catalogue ::
              Shop(store.rows, store.history, catalogue, store.nextId)
              == SavedCopy(Shop(old(store.rows), store.history, catalogue, old(store.nextId)), None, product.Value(),
                           raw)
  {
    var id := store.NewId();
    product := new ScrapedProduct(NewProduct(id, tenant, source, raw, now));
    ok := store.Upsert(product);
  }

  /** A found product is merged and synced with nothing in between. */
  method UpsertFound(store: ProductStore, client: Client, existing: ScrapedProduct, raw: Raw, now: Time,
                     sync: Option<Weather>)
    returns (ok: bool)
    requires WellFormed(ShopOf(store, client))
    requires existing.key in store.rows && existing.Value() == store.rows[existing.key]
    modifies store, client, existing
    ensures ok <==> !Frozen(old(existing.Value()))
    ensures var s := old(ShopOf(store, client));
            var p := old(existing.Value()).(info := Observed(old(existing.Facts()), raw, now));
            ShopOf(store, client) == TrySync(Saved(s, p, raw), p, now, sync)
  {
    ghost var s, copy := ShopOf(store, client), existing.Value();
    ok := Merge(store, existing, raw, now);
    ghost var p := existing.Value();
    FreshCopyIsSaved(s, copy, p, raw);
    SavedExisting(s, p, raw, now);
    assert ShopOf(store, client) == Saved(s, p, raw);
    SyncedCopyIsTrySync(Saved(s, p, raw), p, now, sync);
    TrySyncProduct(store, client, existing, now, sync);
  }

  /** A product that is not there is created and synced with nothing in between. */
  method UpsertNew(store: ProductStore, client: Client, tenant: Uuid, source: Uuid, raw: Raw, now: Time,
                   sync: Option<Weather>)
    requires WellFormed(ShopOf(store, client)) && KeyOf(tenant, source, raw) !in store.rows
    modifies store, client
    ensures var s := old(ShopOf(store, client));
            var p := NewProduct(s.nextId, tenant, source, raw, now);
            ShopOf(store, client) == TrySync(Saved(s, p, raw), p, now, sync)
  {
    ghost var s := ShopOf(store, client);
    var product, ok := CreateNew(store, tenant, source, raw, now);
    ghost var p := product.Value();
    assert ShopOf(store, client) == Saved(s, p, raw);
    RowAdded(s, Saved(s, p, raw), p);
    SyncedCopyIsTrySync(Saved(s, p, raw), p, now, sync);
    if ok {
      TrySyncProduct(store, client, product, now, sync);
    }
  }

  /** One observation: ignored without a title, otherwise created or merged, and synced if ready. */
  method UpsertOne(store: ProductStore, client: Client, tenant: Uuid, source: Uuid, raw: Raw, now: Time,
                   sync: Option<Weather>)
    returns (verdict: Verdict)
    requires WellFormed(ShopOf(store, client))
    modifies store, client
    ensures ShopOf(store, client) == Step(old(ShopOf(store, client)), Observe(tenant, source, raw, now, sync))
    ensures verdict == VerdictOn(old(store.rows), KeyOf(tenant, source, raw), raw)
  {
    if raw.title == "" {
      return Ignored;
    }
    var existing := store.FindByContentHash(KeyOf(tenant, source, raw));
    if existing != null {
      var ok := UpsertFound(store, client, existing, raw, now, sync);
      return if ok then Updated else Refused;
    }
    UpsertNew(store, client, tenant, source, raw, now, sync);
    return Created;
  }

  /** The first n observations of the batch led to t, with these counts. */
  ghost predicate HasUpserted(s: Shop, ops: seq<Op>, n: nat, t: Shop, created: nat, updated: nat) {
    && n <= |ops| && t == Run(s, ops[..n]) && WellFormed(t)
    && created == Count(s, ops[..n], Created) && updated == Count(s, ops[..n], Updated)
  }

  lemma UpsertsOneMore(s: Shop, ops: seq<Op>, n: nat, t: Shop, created: nat, updated: nat)
    requires HasUpserted(s, ops, n, t, created, updated) && n < |ops| && ops[n].Observe?
    ensures var v := VerdictOn(t.rows, Subject(ops[n]), ops[n].raw);
            HasUpserted(s, ops, n + 1, Step(t, ops[n]),
                        created + if v == Created then 1 else 0, updated + if v == Updated then 1 else 0)
  {
    assert ops[..n + 1][..n] == ops[..n];
    StepKeepsWellFormed(t, ops[n]);
  }

  /**
   The whole batch. The stored rows, the history and the catalogue are those of running the kept
   observations one by one, and the counts are those of their verdicts.
   */
  method UpsertProducts(store: ProductStore, client: Client, tenant: Uuid, source: Uuid, raws: array<Raw>,
                        excluded: seq<string>, now: Time, weather: nat -> Option<Weather>)
    returns (created: nat, updated: nat)
    requires WellFormed(ShopOf(store, client))
    modifies store, client, raws
    ensures var ops := BatchOps(tenant, source, Kept(old(raws[..]), excluded), now, weather);
            && ShopOf(store, client) == Run(old(ShopOf(store, client)), ops)
            && created == Count(old(ShopOf(store, client)), ops, Created)
            && updated == Count(old(ShopOf(store, client)), ops, Updated)
            && |store.rows| == |old(store.rows)| + created
  {
    ghost var s := ShopOf(store, client);
    var kept := FilterBrands(raws, excluded);
    ghost var ops := BatchOps(tenant, source, raws[..kept], now, weather);
    created, updated := 0, 0;
    assert ops[..0] == [];
    for i := 0 to kept
      invariant raws[..kept] == Kept(old(raws[..]), excluded)
      invariant HasUpserted(s, ops, i, ShopOf(store, client), created, updated)
    {
      UpsertsOneMore(s, ops, i, ShopOf(store, client), created, updated);
      var verdict := UpsertOne(store, client, tenant, source, raws[i], now, weather(i));
      if verdict == Created {
        created := created + 1;
      } else if verdict == Updated {
        updated := updated + 1;
      }
    }
    assert ops[..kept] == ops;
    CountsAddUp(s, ops);
  }
}
