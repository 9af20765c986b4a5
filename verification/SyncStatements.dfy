/**
 The three requests of a sync, one slot each, whatever the other workers have done since the worker's
 last request.
 */
module SyncStatements {
  import opened Prelude
  import opened Text
  import opened Products
  import opened Catalogues
  import opened SyncRaces
  import Ean

  // ---------------------------------------------------------------- what a request may rely on

  /** The entries that workers have found are there. */
  ghost predicate FoundAreThere(s: State) {
    forall u :: u in s.syncers && s.syncers[u].found.Some? ==> s.syncers[u].found.value < |s.catalogue|
  }

  lemma CodeKeepsFound(s: State, u: nat, a: Attempt)
    requires FoundAreThere(s)
    ensures FoundAreThere(AfterCode(s, u, a))
  {
    EanIndexFinds(s.catalogue, a.product.info.ean, 0);
  }

  lemma NameKeepsFound(s: State, u: nat, a: Attempt)
    requires FoundAreThere(s)
    ensures FoundAreThere(AfterName(s, u, a))
  {
    NameIndexFinds(s.catalogue, a.product.info.title, a.product.info.brand, 0);
  }

  lemma PutKeepsFound(s: State, u: nat, a: Attempt)
    requires FoundAreThere(s)
    ensures FoundAreThere(AfterPut(s, u, a))
  {
  }

  lemma NextKeepsFound(s: State, g: Given, slot: Slot)
    requires FoundAreThere(s)
    ensures FoundAreThere(Next(s, g, slot))
  {
    CodeKeepsFound(s, slot.u, g.seen(slot.u));
    NameKeepsFound(s, slot.u, g.seen(slot.u));
    PutKeepsFound(s, slot.u, g.seen(slot.u));
  }

  /** In every order of requests, from every catalogue: entries are never removed. */
  lemma {:induction false} WorkersMayRely(c: Catalogue, g: Given, slots: seq<Slot>, n: nat)
    requires n <= |slots|
    ensures FoundAreThere(Play(c, g, slots, n))
  {
    if n > 0 {
      WorkersMayRely(c, g, slots, n - 1);
      NextKeepsFound(Play(c, g, slots, n - 1), g, slots[n - 1]);
      NextState(c, g, slots, n - 1);
    }
  }

  // ---------------------------------------------------------------- the requests

  /** SearchByEAN, if the product has a valid code. */
  method SearchForCode(client: Client, product: ScrapedProduct, w: Weather,
                       ghost s: State, ghost g: Given, ghost u: nat)
    returns (found: Result<Option<nat>, SyncError>, ghost t: State)
    requires s.catalogue == client.entries && g.seen(u) == Attempt(product.Value(), w)
    ensures t == Next(s, g, SearchesCode(u)) && t.catalogue == client.entries
    ensures if found.Ok? then u in t.syncers && t.syncers[u] == Coded(found.value) else t == s
  {
    t := Next(s, g, SearchesCode(u));
    found := Ok(None);
    if Ean.IsEan13(TrimSpace(product.ean)) {
      found := client.SearchByEan(product.ean, w.eanSearch);
    }
  }

  /** SearchByNameBrand, if the first search found nothing. */
  method SearchForName(client: Client, product: ScrapedProduct, w: Weather, byCode: Option<nat>,
                       ghost s: State, ghost g: Given, ghost u: nat)
    returns (found: Result<Option<nat>, SyncError>, ghost t: State)
    requires s.catalogue == client.entries && g.seen(u) == Attempt(product.Value(), w)
    requires u in s.syncers && s.syncers[u] == Coded(byCode)
    ensures t == Next(s, g, SearchesName(u)) && t.catalogue == client.entries
    ensures if found.Ok? then u in t.syncers && t.syncers[u] == Targeted(found.value) else u !in t.syncers
  {
    t := Next(s, g, SearchesName(u));
    found := Ok(byCode);
    if byCode.None? {
      found := client.SearchByNameBrand(product.title, product.brand, w.nameSearch);
    }
  }

  /** UpdateProduct or CreateProduct. */
  method PutProduct(client: Client, product: ScrapedProduct, w: Weather, found: Option<nat>,
                    ghost s: State, ghost g: Given, ghost u: nat)
    returns (ok: bool, ghost t: State)
    requires s.catalogue == client.entries && g.seen(u) == Attempt(product.Value(), w) && FoundAreThere(s)
    requires u in s.syncers && s.syncers[u] == Targeted(found)
    modifies client
    ensures t == Next(s, g, Puts(u)) && t.catalogue == client.entries && u !in t.syncers
    ensures ok <==> w.write == Applied
  {
    t := Next(s, g, Puts(u));
    if found.Some? {
      ok := client.Update(found.value, product.price, product.image, w.write);
    } else {
      ok := client.Create(NewEntry(product.Value()), w.write);
    }
  }
}
