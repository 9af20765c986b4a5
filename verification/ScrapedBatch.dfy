/** Executing a scrape job end to end: source-level fallbacks, the upsert use case, and the job tables. */
module ScrapedBatches {
  import opened Prelude
  import opened RawProducts
  import opened Products
  import opened Catalogues
  import opened Shops
  import opened UpsertBatches
  import opened UpsertUseCase
  import opened ScrapingJobs
  import opened JobProtocol
  import opened ScrapeUseCases

  /** A missing url or category is taken from the source. */
  function WithFallbacks(raw: Raw, baseUrl: string, category: string): Raw {
    raw.(url := Fill(raw.url, baseUrl), category := Fill(raw.category, category))
  }

  function AllWithFallbacks(raws: seq<Raw>, baseUrl: string, category: string): seq<Raw> {
    seq(|raws|, i requires 0 <= i < |raws| => WithFallbacks(raws[i], baseUrl, category))
  }

  method FillFallbacks(raws: array<Raw>, baseUrl: string, category: string)
    modifies raws
    ensures raws[..] == AllWithFallbacks(old(raws[..]), baseUrl, category)
    ensures forall i :: 0 <= i < raws.Length ==>
                          var raw := old(raws[i]);
                          raws[i] == raw.(url := if raw.url == "" then baseUrl else raw.url,
                          category := if raw.category == "" then category else raw.category)
  {
    for i := 0 to raws.Length
      invariant forall j :: 0 <= j < i ==> raws[j] == WithFallbacks(old(raws[j]), baseUrl, category)
      invariant forall j :: i <= j < raws.Length ==> raws[j] == old(raws[j])
    {
      if raws[i].url == "" {
        raws[i] := raws[i].(url := baseUrl);
      }
      if raws[i].category == "" && category != "" {
        raws[i] := raws[i].(category := category);
      }
    }
  }

  /** The fallbacks leave brands alone, so they and the brand filter can change places. */
  lemma {:induction false} FilterIgnoresFallbacks(raws: seq<Raw>, excluded: seq<string>, baseUrl: string,
                                                  category: string)
    ensures Kept(AllWithFallbacks(raws, baseUrl, category), excluded)
         == AllWithFallbacks(Kept(raws, excluded), baseUrl, category)
  {
    if raws != [] {
      var n := |raws| - 1;
      var all := AllWithFallbacks(raws, baseUrl, category);
      assert all[..n] == AllWithFallbacks(raws[..n], baseUrl, category);
      FilterIgnoresFallbacks(raws[..n], excluded, baseUrl, category);
      assert IsExcluded(all[n], excluded) <==> IsExcluded(raws[n], excluded);
    }
  }

  /** The fallback category is what makes products without one ready for the catalogue. */
  lemma ReadyWithFallback(id: Uuid, tenant: Uuid, source: Uuid, raw: Raw, baseUrl: string, category: string, now: Time)
    ensures IsReady(NewProduct(id, tenant, source, WithFallbacks(raw, baseUrl, category), now))
       <==> raw.price.Some? && raw.image != "" && (raw.category != "" || category != "")
  {
  }

  lemma {:induction false} TitledAtMost(ops: seq<Op>)
    ensures Titled(ops) <= |ops|
  {
    if ops != [] {
      TitledAtMost(ops[..|ops| - 1]);
    }
  }

  /**
   The products part of executing a job. The number found is that of the whole batch, although the
   brand filter compacts it in place; the number saved is at most that.
   */
  method SaveScraped(store: ProductStore, client: Client, tenant: Uuid, source: Uuid, raws: array<Raw>, baseUrl: string,
                     category: string, excluded: seq<string>, now: Time, weather: nat -> Option<Weather>)
    returns (found: nat, saved: nat)
    requires WellFormed(ShopOf(store, client))
    modifies store, client, raws
    ensures var kept := AllWithFallbacks(Kept(old(raws[..]), excluded), baseUrl, category);
            var ops := BatchOps(tenant, source, kept, now, weather);
            && ShopOf(store, client) == Run(old(ShopOf(store, client)), ops)
            && saved + Count(old(ShopOf(store, client)), ops, Refused) == Titled(ops)
    ensures found == |old(raws[..])| && saved <= found
  {
    ghost var s := ShopOf(store, client);
    FilterIgnoresFallbacks(raws[..], excluded, baseUrl, category);
    FillFallbacks(raws, baseUrl, category);
    ghost var ops := BatchOps(tenant, source, Kept(raws[..], excluded), now, weather);
    KeptIsShorter(raws[..], excluded);
    var created, updated := UpsertProducts(store, client, tenant, source, raws, excluded, now, weather);
    found, saved := raws.Length, created + updated;
    CountsAddUp(s, ops);
    TitledAtMost(ops);
  }

  /** What a source row says about its scrapes. */
  datatype Settings = Settings(baseUrl: string, category: string, excluded: seq<string>)

  /** The store after the products of a batch were saved, with these numbers found and saved. */
  ghost predicate IsSaved(before: Shop, after: Shop, tenant: Uuid, source: Uuid, raws: seq<Raw>, settings: Settings,
                          now: Time, weather: nat -> Option<Weather>, found: int, saved: int)
  {
    var kept := AllWithFallbacks(Kept(raws, settings.excluded), settings.baseUrl, settings.category);
    var ops := BatchOps(tenant, source, kept, now, weather);
    && after == Run(before, ops)
    && saved + Count(before, ops, Refused) == Titled(ops)
    && found == |raws| && 0 <= saved <= found
  }

  /** Saves what was fetched, writes the job's final row with the numbers, and counts the run. */
  method SaveAndFinish(jobs: JobTable, sources: SourceTable, store: ProductStore, client: Client, job: ScrapingJob,
                       raws: array<Raw>, settings: Settings, now: Time, weather: nat -> Option<Weather>,
                       ghost s: State, ghost w: nat)
    returns (ghost outcome: Outcome, ghost t: State)
    requires s.clock == now && Matches(s, jobs.rows, sources.rows) && WellFormed(ShopOf(store, client))
    requires w in s.workers && s.workers[w] == Scraping(job.Value()) && IsHeld(jobs.rows, sources.rows, s.workers[w])
    modifies jobs, sources, job, store, client, raws
    ensures Steps(s, [Finish(w, outcome), Record(w)], t) && Matches(t, jobs.rows, sources.rows)
    ensures job.id in jobs.rows && jobs.rows[job.id].status == Completed
    ensures IsSaved(old(ShopOf(store, client)), ShopOf(store, client), job.tenant, job.source, old(raws[..]), settings,
                    now, weather, jobs.rows[job.id].found, jobs.rows[job.id].saved)
  {
    var total, saved :=
      SaveScraped(store, client, job.tenant, job.source, raws, settings.baseUrl, settings.category, settings.excluded,
                  now, weather);
    outcome := Done(total, saved);
    t := FinishScrape(jobs, sources, job, Done(total, saved), now, s, w);
  }

  /** What was fetched for a job whose source was found is saved, or the job fails and nothing is. */
  method FinishFetched(jobs: JobTable, sources: SourceTable, store: ProductStore, client: Client, job: ScrapingJob,
                       fetched: Result<array<Raw>, string>, settings: Settings, now: Time,
                       weather: nat -> Option<Weather>, ghost s: State, ghost w: nat)
    returns (r: Prelude.Result<(), JobError>, ghost outcome: Outcome, ghost t: State)
    requires s.clock == now && Matches(s, jobs.rows, sources.rows) && WellFormed(ShopOf(store, client))
    requires w in s.workers && s.workers[w] == Scraping(job.Value()) && IsHeld(jobs.rows, sources.rows, s.workers[w])
    modifies jobs, sources, job, store, client, if fetched.Ok? then {fetched.value} else {}
    ensures Steps(s, [Finish(w, outcome), Record(w)], t) && Matches(t, jobs.rows, sources.rows)
    ensures r.Ok? <==> fetched.Ok?
    ensures job.id in jobs.rows && jobs.rows[job.id].status == (if r.Ok? then Completed else Failed)
    ensures r.Err? ==> ShopOf(store, client) == old(ShopOf(store, client))
    ensures r.Ok? ==>
              IsSaved(old(ShopOf(store, client)), ShopOf(store, client), job.tenant, job.source, old(fetched.value[..]),
                      settings, now, weather, jobs.rows[job.id].found, jobs.rows[job.id].saved)
  {
    if fetched.Err? {
      outcome := Broken(fetched.error);
      t := FinishScrape(jobs, sources, job, Broken(fetched.error), now, s, w);
      return Err(ScrapeFailed(fetched.error)), outcome, t;
    }
    outcome, t := SaveAndFinish(jobs, sources, store, client, job, fetched.value, settings, now, weather, s, w);
    r := Ok(());
  }

  /**
   Execute of the scrape use case for a claimed job: look up the source, take what was fetched, save
   the products, write the job's final row with the numbers found and saved, count the run. On the
   job and source tables it is the protocol's events of this worker; a job that fails saves nothing.
   */
  method ExecuteScrape(jobs: JobTable, sources: SourceTable, store: ProductStore, client: Client, job: ScrapingJob,
                       fetched: Result<array<Raw>, string>, settings: Settings, now: Time,
                       weather: nat -> Option<Weather>, ghost s: State, ghost w: nat)
    returns (r: Prelude.Result<(), JobError>, ghost outcome: Outcome, ghost end: State)
    requires s.clock == now && Matches(s, jobs.rows, sources.rows) && WellFormed(ShopOf(store, client))
    requires w in s.workers && s.workers[w] == Claimed(job.Value()) && IsHeld(jobs.rows, sources.rows, s.workers[w])
    modifies jobs, sources, job, store, client, if fetched.Ok? then {fetched.value} else {}
    ensures Steps(s, ExecuteEvents(s, w, old(job.Value()), outcome), end) && Matches(end, jobs.rows, sources.rows)
    ensures r.Ok? <==> SourceVisible(s.sources, old(job.Value())) && fetched.Ok?
    ensures job.id in jobs.rows && jobs.rows[job.id].status == (if r.Ok? then Completed else Failed)
    ensures r.Err? ==> ShopOf(store, client) == old(ShopOf(store, client))
    ensures r.Ok? ==>
              IsSaved(old(ShopOf(store, client)), ShopOf(store, client), job.tenant, job.source, old(fetched.value[..]),
                      settings, now, weather, jobs.rows[job.id].found, jobs.rows[job.id].saved)
  {
    outcome := Broken("");
    var found, looked := LookUpSource(jobs, sources, job, now, s, w);
    if !found {
      end := WriteUnfound(jobs, job, looked, w);
      TwoSteps(s, LookUp(w), WriteMissing(w));
      return Err(SourceNotFound), outcome, end;
    }
    r, outcome, end := FinishFetched(jobs, sources, store, client, job, fetched, settings, now, weather, looked, w);
    ExecutedFound(s, w, old(job.Value()), outcome, end);
  }
}
