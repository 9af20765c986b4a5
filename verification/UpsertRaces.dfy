/**
 Upserts by several workers at once. A worker finds a product, writes what it has made of it, and
 syncs its in-memory copy, each at its own time; pages of pending products are loaded before they are
 synced; moderators block and hide in between.
 */
module UpsertRaces {
  import opened Prelude
  import opened RawProducts
  import opened Products
  import opened Catalogues
  import opened Shops
  import opened PriceTrails

  /** Where a worker stands with a product: found, or not, and to be written; or in memory, to be synced. */
  datatype Writer =
    | Reading(tenant: Uuid, source: Uuid, raw: Raw, now: Time, copy: Option<Product>)
    | Syncing(product: Product)

  datatype State = State(shop: Shop, writers: map<nat, Writer>)

  datatype Event =
    | Find(u: nat, tenant: Uuid, source: Uuid, raw: Raw, now: Time)
    | Save(u: nat)
    | Load(u: nat, key: Key)
    | SyncCopy(u: nat, sync: Option<Weather>, now: Time)
    | Moderate(op: Op)

  function KeyBeingWritten(w: Writer): Key
    requires w.Reading?
  {
    KeyOf(w.tenant, w.source, w.raw)
  }

  predicate Enabled(s: State, e: Event) {
    match e
    case Find(u, _, _, raw, _) => u !in s.writers && raw.title != ""
    case Save(u) => u in s.writers && s.writers[u].Reading?
    case Load(u, key) => u !in s.writers && key in s.shop.rows
    case SyncCopy(u, _, _) => u in s.writers && s.writers[u].Syncing?
    case Moderate(op) => op.SetBlocked? || op.Hide?
  }

  /** The product in the worker's memory: merged into the copy it found, or new. */
  function InWriter(s: Shop, w: Writer): Product
    requires w.Reading?
  {
    match w.copy
    case Some(c) => c.(info := Observed(c.info, w.raw, w.now))
    case None => NewProduct(s.nextId, w.tenant, w.source, w.raw, w.now)
  }

  function Next(s: State, e: Event): State
    requires Enabled(s, e)
  {
    match e
    case Find(u, tenant, source, raw, now) =>
      var k := KeyOf(tenant, source, raw);
      var copy := if k in s.shop.rows then Some(s.shop.rows[k]) else None;
      s.(writers := s.writers[u := Reading(tenant, source, raw, now, copy)])
    case Save(u) => AfterSave(s, u)
    case Load(u, key) => s.(writers := s.writers[u := Syncing(s.shop.rows[key])])
    case SyncCopy(u, sync, now) => State(SyncedCopy(s.shop, s.writers[u].product, now, sync), s.writers - {u})
    case Moderate(op) => s.(shop := Step(s.shop, op))
  }

  /** A product that could not be created is not synced; one that could not be updated is. */
  function AfterSave(s: State, u: nat): State
    requires u in s.writers && s.writers[u].Reading?
  {
    var w := s.writers[u];
    var p := InWriter(s.shop, w);
    var refused := w.copy.None? && UpsertRow(s.shop.rows, p).None?;
    State(SavedCopy(s.shop, w.copy, p, w.raw), if refused then s.writers - {u} else s.writers[u := Syncing(p)])
  }

  /** An event that is not enabled does not happen. */
  function Play(catalogue: Catalogue, events: seq<Event>): State {
    if events == [] then State(EmptyShop(catalogue), map[])
    else
      var s := Play(catalogue, events[..|events| - 1]);
      var e := events[|events| - 1];
      if Enabled(s, e) then Next(s, e) else s
  }

  /** The observation that an event writes under key k, if it writes one. */
  function Taken(s: State, e: Event, k: Key): seq<Raw> {
    if e.Save? && Enabled(s, e) && KeyBeingWritten(s.writers[e.u]) == k
       && UpsertRow(s.shop.rows, InWriter(s.shop, s.writers[e.u])).Some?
    then [s.writers[e.u].raw] else []
  }

  /** The observations written under key k, in the order of their writes. */
  function AllTaken(catalogue: Catalogue, events: seq<Event>, k: Key): seq<Raw> {
    if events == [] then []
    else
      var n := |events| - 1;
      AllTaken(catalogue, events[..n], k) + Taken(Play(catalogue, events[..n]), events[n], k)
  }

  // ---------------------------------------------------------------- what every event keeps

  /** A found copy is of a row that is still there. */
  predicate CopyOfRow(rows: map<Key, Product>, w: Writer) {
    w.Reading? && w.copy.Some? ==>
      && w.copy.value.key == KeyBeingWritten(w)
      && KeyBeingWritten(w) in rows && rows[KeyBeingWritten(w)].id == w.copy.value.id
  }

  ghost predicate Sound(s: State) {
    WellFormed(s.shop) && forall u :: u in s.writers ==> CopyOfRow(s.shop.rows, s.writers[u])
  }

  /** Rows are added, never removed or given another identifier. */
  predicate RowsStay(before: map<Key, Product>, after: map<Key, Product>) {
    forall k :: k in before ==> k in after && after[k].id == before[k].id && after[k].key == before[k].key
  }

  lemma RefusedSave(s: Shop, w: Writer)
    requires WellFormed(s) && w.Reading? && UpsertRow(s.rows, InWriter(s, w)).None?
    ensures var t := SavedCopy(s, w.copy, InWriter(s, w), w.raw);
            t.rows == s.rows && t.history == s.history && WellFormed(t)
  {
  }

  /** What putting a row of its own identifier under a key keeps. */
  lemma PutKeeps(s: Shop, put: Shop, q: Product)
    requires WellFormed(s) && put.rows == s.rows[q.key := q] && put.history == s.history
    requires if q.key in s.rows then q.id == s.rows[q.key].id && s.nextId <= put.nextId
             else q.id == s.nextId && put.nextId == s.nextId + 1
    ensures WellFormed(put) && RowsStay(s.rows, put.rows)
    ensures forall l :: l != q.key ==> PricesOf(put, l) == PricesOf(s, l)
  {
  }

  /** The row that a write that takes effect puts. */
  lemma EffectivePut(s: Shop, w: Writer, put: Shop)
    requires WellFormed(s) && w.Reading? && CopyOfRow(s.rows, w) && UpsertRow(s.rows, InWriter(s, w)).Some?
    requires put == SavedCopy(s, w.copy, InWriter(s, w), w.raw).(history := s.history)
    ensures var k := KeyBeingWritten(w);
            && k in put.rows && put.rows[k].key == k && put.rows == s.rows[k := put.rows[k]]
            && if k in s.rows then put.rows[k].id == s.rows[k].id && s.nextId <= put.nextId
               else put.rows[k].id == s.nextId && put.nextId == s.nextId + 1
  {
  }

  /** What a write that takes effect does to the rows and the history. */
  lemma EffectiveSave(s: Shop, w: Writer)
    requires WellFormed(s) && w.Reading? && CopyOfRow(s.rows, w) && UpsertRow(s.rows, InWriter(s, w)).Some?
    ensures var k := KeyBeingWritten(w);
            var t := SavedCopy(s, w.copy, InWriter(s, w), w.raw);
            && WellFormed(t) && RowsStay(s.rows, t.rows)
            && k in t.rows && t.rows == s.rows[k := t.rows[k]]
            && forall l :: l != k ==> PricesOf(t, l) == PricesOf(s, l)
  {
    var k := KeyBeingWritten(w);
    var t := SavedCopy(s, w.copy, InWriter(s, w), w.raw);
    var put := t.(history := s.history);
    EffectivePut(s, w, put);
    PutKeeps(s, put, put.rows[k]);
    if w.copy.Some? && OldPrice(w.copy.value.info, w.raw).Some? {
      RecordAdded(put, t, k, OldPrice(w.copy.value.info, w.raw).value);
      forall l | l != k
        ensures PricesOf(t, l) == PricesOf(put, l)
      {
        OtherPricesStay(put, t, k, OldPrice(w.copy.value.info, w.raw).value, l);
      }
    }
  }

  // ---------------------------------------------------------------- one event

  /** What the fold is about, for one key, is the same in both stores. */
  predicate SameContent(s: Shop, t: Shop, k: Key) {
    && (k in s.rows <==> k in t.rows)
    && (k in s.rows ==> t.rows[k].info == s.rows[k].info && t.rows[k].id == s.rows[k].id)
    && PricesOf(t, k) == PricesOf(s, k)
  }

  /** What an event guarantees of the store, whatever it is. */
  ghost predicate Advances(s: Shop, t: Shop) {
    WellFormed(t) && RowsStay(s.rows, t.rows)
  }

  lemma MarksOnly(rows: map<Key, Product>, tenant: Uuid, id: Uuid, now: Time, k: Key)
    requires k in rows
    ensures k in MarkId(rows, tenant, id, now)
    ensures MarkId(rows, tenant, id, now)[k] == rows[k].(syncedAt := MarkId(rows, tenant, id, now)[k].syncedAt)
  {
  }

  lemma MarksKeepAll(s: Shop, t: Shop)
    requires WellFormed(s) && t.history == s.history && t.nextId == s.nextId && t.rows.Keys == s.rows.Keys
    requires forall k :: k in s.rows ==> t.rows[k] == s.rows[k].(syncedAt := t.rows[k].syncedAt)
    ensures Advances(s, t) && forall k :: SameContent(s, t, k)
  {
  }

  lemma SyncedCopyAdvances(s: Shop, p: Product, now: Time, sync: Option<Weather>)
    requires WellFormed(s)
    ensures Advances(s, SyncedCopy(s, p, now, sync)) && forall k :: SameContent(s, SyncedCopy(s, p, now, sync), k)
  {
    forall k | k in s.rows {
      MarksOnly(s.rows, p.key.tenant, p.id, now, k);
    }
    MarksKeepAll(s, SyncedCopy(s, p, now, sync));
  }

  lemma ModerationKeeps(s: Shop, op: Op, k: Key)
    requires WellFormed(s) && (op.SetBlocked? || op.Hide?)
    ensures SameContent(s, Step(s, op), k)
  {
    assert !Accepts(s, op, k);
    OthersKeepFields(s, op, k);
  }

  lemma ModerationAdvances(s: Shop, op: Op)
    requires WellFormed(s) && (op.SetBlocked? || op.Hide?)
    ensures Advances(s, Step(s, op))
  {
    StepKeepsWellFormed(s, op);
  }

  lemma SaveAdvances(s: Shop, w: Writer)
    requires WellFormed(s) && w.Reading? && CopyOfRow(s.rows, w)
    ensures var t := SavedCopy(s, w.copy, InWriter(s, w), w.raw);
            && Advances(s, t)
            && (forall k :: k != KeyBeingWritten(w) || UpsertRow(s.rows, InWriter(s, w)).None? ==> SameContent(s, t, k))
  {
    if UpsertRow(s.rows, InWriter(s, w)).None? {
      RefusedSave(s, w);
    } else {
      EffectiveSave(s, w);
    }
  }

  /** Every event keeps the store sound, and changes the content of a key only by writing to it. */
  lemma NextAdvances(s: State, e: Event, k: Key)
    requires Sound(s) && Enabled(s, e)
    ensures Advances(s.shop, Next(s, e).shop)
    ensures Taken(s, e, k) == [] ==> SameContent(s.shop, Next(s, e).shop, k)
  {
    match e
    case Find(_, _, _, _, _) =>
    case Load(_, _) =>
    case Save(u) => SaveAdvances(s.shop, s.writers[u]);
    case SyncCopy(u, sync, now) => SyncedCopyAdvances(s.shop, s.writers[u].product, now, sync);
    case Moderate(op) =>
      ModerationAdvances(s.shop, op);
      ModerationKeeps(s.shop, op, k);
  }

  lemma CopiesSurvive(s: State, e: Event)
    requires Sound(s) && Enabled(s, e) && RowsStay(s.shop.rows, Next(s, e).shop.rows)
    ensures forall u :: u in Next(s, e).writers ==> CopyOfRow(Next(s, e).shop.rows, Next(s, e).writers[u])
  {
    var t := Next(s, e);
    forall u | u in t.writers
      ensures CopyOfRow(t.shop.rows, t.writers[u])
    {
      if u in s.writers && t.writers[u] == s.writers[u] {
        assert CopyOfRow(s.shop.rows, s.writers[u]);
      }
    }
  }

  lemma NextSound(s: State, e: Event)
    requires Sound(s) && Enabled(s, e)
    ensures Sound(Next(s, e))
  {
    NextAdvances(s, e, Key(0, 0, ""));
    CopiesSurvive(s, e);
  }

  lemma {:induction false} PlaySound(catalogue: Catalogue, events: seq<Event>)
    ensures Sound(Play(catalogue, events))
  {
    if events != [] {
      var s := Play(catalogue, events[..|events| - 1]);
      PlaySound(catalogue, events[..|events| - 1]);
      if Enabled(s, events[|events| - 1]) {
        NextSound(s, events[|events| - 1]);
      }
    }
  }

  // ---------------------------------------------------------------- fresh copies

  /** The row is, as far as observations go, what the worker found. */
  predicate IsFresh(rows: map<Key, Product>, w: Writer)
    requires w.Reading?
  {
    var k := KeyBeingWritten(w);
    match w.copy
    case None => k !in rows
    case Some(c) => c.key == k && k in rows && rows[k].id == c.id && rows[k].info == c.info
  }

  /** A write from a fresh copy is the observation in one step. */
  lemma FreshSaveIsObserve(s: Shop, w: Writer)
    requires WellFormed(s) && w.Reading? && w.raw.title != "" && IsFresh(s.rows, w)
    ensures SavedCopy(s, w.copy, InWriter(s, w), w.raw) == Step(s, Observe(w.tenant, w.source, w.raw, w.now, None))
  {
  }

  predicate Acts(e: Event, u: nat) {
    match e
    case Find(v, _, _, _, _) => v == u
    case Save(v) => v == u
    case Load(v, _) => v == u
    case SyncCopy(v, _, _) => v == u
    case Moderate(_) => false
  }

  /** An event that happens, by the worker. */
  ghost predicate ActsAt(catalogue: Catalogue, events: seq<Event>, u: nat, d: nat) {
    d < |events| && Acts(events[d], u) && Enabled(Play(catalogue, events[..d]), events[d])
  }

  /** Event a is the find that put worker u where it stands at the end; u has not acted since. */
  ghost predicate FoundAt(catalogue: Catalogue, events: seq<Event>, u: nat, a: nat) {
    && a < |events| && events[a].Find? && ActsAt(catalogue, events, u, a)
    && forall d :: a < d < |events| ==> !ActsAt(catalogue, events, u, d)
  }

  /** Event b writes under key k. */
  ghost predicate WritesAt(catalogue: Catalogue, events: seq<Event>, k: Key, b: nat) {
    b < |events| && Taken(Play(catalogue, events[..b]), events[b], k) != []
  }

  lemma FrontAgrees(catalogue: Catalogue, events: seq<Event>, n: nat, k: Key, u: nat, d: nat)
    requires d < n <= |events|
    ensures ActsAt(catalogue, events[..n], u, d) <==> ActsAt(catalogue, events, u, d)
    ensures WritesAt(catalogue, events[..n], k, d) <==> WritesAt(catalogue, events, k, d)
  {
    assert events[..n][..d] == events[..d];
  }

  lemma FoundEarlier(catalogue: Catalogue, events: seq<Event>, u: nat, a: nat)
    requires events != [] && FoundAt(catalogue, events[..|events| - 1], u, a)
    requires !ActsAt(catalogue, events, u, |events| - 1)
    ensures FoundAt(catalogue, events, u, a)
  {
    forall d | a <= d < |events| - 1
      ensures ActsAt(catalogue, events[..|events| - 1], u, d) <==> ActsAt(catalogue, events, u, d)
    {
      FrontAgrees(catalogue, events, |events| - 1, Key(0, 0, ""), u, d);
    }
  }

  lemma IdleWriterStays(s: State, e: Event, u: nat)
    requires !(Acts(e, u) && Enabled(s, e)) && Enabled(s, e) && u in Next(s, e).writers
    ensures u in s.writers && s.writers[u] == Next(s, e).writers[u]
  {
  }

  lemma FindIsFresh(s: State, e: Event)
    requires e.Find? && Enabled(s, e) && Sound(s)
    ensures var w := Next(s, e).writers[e.u];
            w.Reading? && w.raw.title != "" && IsFresh(Next(s, e).shop.rows, w)
  {
  }

  lemma FreshStays(s: Shop, t: Shop, w: Writer)
    requires w.Reading? && IsFresh(s.rows, w) && SameContent(s, t, KeyBeingWritten(w))
    ensures IsFresh(t.rows, w)
  {
  }

  /**
   A worker that has found a product and not yet written it holds a fresh copy, unless somebody has
   written under its key since it found it.
   */
  lemma {:induction false} FreshUnlessWritten(catalogue: Catalogue, events: seq<Event>, u: nat) returns (a: nat, b: nat)
    requires u in Play(catalogue, events).writers && Play(catalogue, events).writers[u].Reading?
    ensures var s := Play(catalogue, events);
            var w := s.writers[u];
            && FoundAt(catalogue, events, u, a) && w.raw.title != ""
            && (IsFresh(s.shop.rows, w) || (a < b && WritesAt(catalogue, events, KeyBeingWritten(w), b)))
  {
    var n := |events| - 1;
    var s := Play(catalogue, events[..n]);
    var e := events[n];
    var k := KeyBeingWritten(Play(catalogue, events).writers[u]);
    PlaySound(catalogue, events[..n]);
    if ActsAt(catalogue, events, u, n) {
      a, b := n, 0;
      FindIsFresh(s, e);
    } else {
      if Enabled(s, e) {
        IdleWriterStays(s, e, u);
        NextAdvances(s, e, k);
      }
      a, b := FreshUnlessWritten(catalogue, events[..n], u);
      FoundEarlier(catalogue, events, u, a);
      if a < b && WritesAt(catalogue, events[..n], k, b) {
        FrontAgrees(catalogue, events, n, k, u, b);
      } else if WritesAt(catalogue, events, k, n) {
        b := n;
      } else if Enabled(s, e) {
        FreshStays(s.shop, Next(s, e).shop, s.writers[u]);
      }
    }
  }

  // ---------------------------------------------------------------- the fold, with workers at once

  /** Save c of key k was found at a, and in between, at b, somebody wrote under k. */
  ghost predicate OverlapAt(catalogue: Catalogue, events: seq<Event>, k: Key, a: nat, b: nat, c: nat) {
    && a < b < c < |events| && events[c].Save? && Enabled(Play(catalogue, events[..c]), events[c])
    && KeyBeingWritten(Play(catalogue, events[..c]).writers[events[c].u]) == k
    && FoundAt(catalogue, events[..c], events[c].u, a) && WritesAt(catalogue, events, k, b)
  }

  ghost predicate NoOverlap(catalogue: Catalogue, events: seq<Event>, k: Key) {
    forall a: nat, b: nat, c: nat :: !OverlapAt(catalogue, events, k, a, b, c)
  }

  lemma FrontOverlaps(catalogue: Catalogue, events: seq<Event>, n: nat, k: Key, a: nat, b: nat, c: nat)
    requires n <= |events|
    ensures OverlapAt(catalogue, events[..n], k, a, b, c) ==> OverlapAt(catalogue, events, k, a, b, c)
  {
    if OverlapAt(catalogue, events[..n], k, a, b, c) {
      assert events[..n][..c] == events[..c];
      FrontAgrees(catalogue, events, n, k, 0, b);
    }
  }

  lemma FrontHasNoOverlap(catalogue: Catalogue, events: seq<Event>, n: nat, k: Key)
    requires n <= |events| && NoOverlap(catalogue, events, k)
    ensures NoOverlap(catalogue, events[..n], k)
  {
    forall a: nat, b: nat, c: nat
      ensures !OverlapAt(catalogue, events[..n], k, a, b, c)
    {
      FrontOverlaps(catalogue, events, n, k, a, b, c);
    }
  }

  lemma SameContentFolds(s: Shop, t: Shop, k: Key, raws: seq<Raw>)
    requires SameContent(s, t, k) && KeyFolds(s, k, raws)
    ensures KeyFolds(t, k, raws)
  {
  }

  /** A fresh write folds the observation in, or is refused. */
  lemma FreshSaveFolds(s: State, u: nat, k: Key, raws: seq<Raw>)
    requires Sound(s) && Enabled(s, Save(u)) && KeyBeingWritten(s.writers[u]) == k && KeyFolds(s.shop, k, raws)
    requires s.writers[u].raw.title != "" && IsFresh(s.shop.rows, s.writers[u])
    ensures KeyFolds(Next(s, Save(u)).shop, k, raws + Taken(s, Save(u), k))
  {
    var w := s.writers[u];
    FreshSaveIsObserve(s.shop, w);
    var op := Observe(w.tenant, w.source, w.raw, w.now, None);
    StepFolds(s.shop, op, k, raws);
    assert Accepts(s.shop, op, k) <==> Taken(s, Save(u), k) == [w.raw];
  }

  ghost predicate EndsWithSave(catalogue: Catalogue, events: seq<Event>, k: Key) {
    && events != []
    && var s := Play(catalogue, events[..|events| - 1]);
    var e := events[|events| - 1];
    e.Save? && Enabled(s, e) && KeyBeingWritten(s.writers[e.u]) == k
  }

  /** The worker that saves in the last event, as it was before. */
  function LastWriter(catalogue: Catalogue, events: seq<Event>): Writer
    requires events != [] && events[|events| - 1].Save?
    requires events[|events| - 1].u in Play(catalogue, events[..|events| - 1]).writers
  {
    Play(catalogue, events[..|events| - 1]).writers[events[|events| - 1].u]
  }

  /** A save that is not fresh overlaps with another. */
  lemma SaveIsFreshOrOverlaps(catalogue: Catalogue, events: seq<Event>, k: Key) returns (a: nat, b: nat)
    requires EndsWithSave(catalogue, events, k)
    ensures LastWriter(catalogue, events).raw.title != ""
    ensures || IsFresh(Play(catalogue, events[..|events| - 1]).shop.rows, LastWriter(catalogue, events))
            || OverlapAt(catalogue, events, k, a, b, |events| - 1)
  {
    var n := |events| - 1;
    var s := Play(catalogue, events[..n]);
    var u := events[n].u;
    a, b := FreshUnlessWritten(catalogue, events[..n], u);
    if !IsFresh(s.shop.rows, s.writers[u]) {
      FrontAgrees(catalogue, events, n, k, u, b);
    }
  }

  /**
   The fold with any number of workers at once, syncs, pages of pending products and moderators in
   between: if nobody writes under the key between a find and the write that follows from it, the row
   and its history are the fold of the observations in the order of their writes.
   */
  lemma {:induction false} FoldWithoutOverlap(catalogue: Catalogue, events: seq<Event>, k: Key)
    requires NoOverlap(catalogue, events, k)
    ensures KeyFolds(Play(catalogue, events).shop, k, AllTaken(catalogue, events, k))
  {
    if events != [] {
      var n := |events| - 1;
      var s := Play(catalogue, events[..n]);
      var e := events[n];
      var raws := AllTaken(catalogue, events[..n], k);
      FrontHasNoOverlap(catalogue, events, n, k);
      FoldWithoutOverlap(catalogue, events[..n], k);
      PlaySound(catalogue, events[..n]);
      if e.Save? && Enabled(s, e) && KeyBeingWritten(s.writers[e.u]) == k {
        var a, b := SaveIsFreshOrOverlaps(catalogue, events, k);
        FreshSaveFolds(s, e.u, k, raws);
      } else {
        assert Taken(s, e, k) == [] && raws + [] == raws;
        if Enabled(s, e) {
          NextAdvances(s, e, k);
          SameContentFolds(s.shop, Next(s, e).shop, k, raws);
        }
      }
    }
  }
}
