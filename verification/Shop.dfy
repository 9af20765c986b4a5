/**
 The product store with its price history, and everything that happens to it: observations, syncs,
 blocking and hiding. An operation is one step; a scrape is one observation after another.
 */
module Shops {
  import opened Prelude
  import opened RawProducts
  import opened Products
  import opened Catalogues

  datatype Shop = Shop(
    rows: map<Key, Product>,
    history: map<Uuid, seq<int>>, // the old prices of each product, oldest first
    catalogue: Catalogue,
    nextId: Uuid
  )

  function EmptyShop(catalogue: Catalogue): Shop {
    Shop(map[], map[], catalogue, 0)
  }

  /** What became of an observation. */
  datatype Verdict = Ignored | Created | Updated | Refused

  datatype Op =
    | Observe(tenant: Uuid, source: Uuid, raw: Raw, now: Time, sync: Option<Weather>)
    | SyncRow(key: Key, weather: Weather, now: Time)
    | SetBlocked(key: Key, blocked: bool)
    | Hide(key: Key, now: Time)

  /** The columns that the upsert statement overwrites on conflict. */
  function Merged(row: Info, p: Info): Info {
    row.(lastSeenAt := p.lastSeenAt, price := p.price, priceChangedAt := p.priceChangedAt, image := p.image,
    category := p.category, brand := p.brand, description := p.description, url := p.url, inStock := p.inStock)
  }

  /** The upsert statement; it affects no row, which the caller sees as an error, when the guard fails. */
  function UpsertRow(rows: map<Key, Product>, p: Product): Option<map<Key, Product>> {
    if p.key !in rows then Some(rows[p.key := p])
    else if Frozen(rows[p.key]) then None
    else Some(rows[p.key := rows[p.key].(info := Merged(rows[p.key].info, p.info))])
  }

  function HistoryOf(history: map<Uuid, seq<int>>, id: Uuid): seq<int> {
    if id in history then history[id] else []
  }

  function WithRecord(history: map<Uuid, seq<int>>, id: Uuid, price: int): map<Uuid, seq<int>> {
    history[id := HistoryOf(history, id) + [price]]
  }

  function MarkRow(rows: map<Key, Product>, key: Key, now: Time): map<Key, Product> {
    if key in rows then rows[key := rows[key].(syncedAt := Some(now))] else rows
  }

  /** Syncs the in-memory product, if a catalogue is configured and it needs it. */
  function TrySync(s: Shop, p: Product, now: Time, sync: Option<Weather>): Shop {
    if sync.None? then s
    else
      var r := Sync(s.catalogue, p, sync.value);
      s.(catalogue := r.catalogue, rows := if r.marked then MarkRow(s.rows, p.key, now) else s.rows)
  }

  function VerdictOn(rows: map<Key, Product>, key: Key, raw: Raw): Verdict {
    if raw.title == "" then Ignored
    else if key !in rows then Created
    else if Frozen(rows[key]) then Refused
    else Updated
  }

  /** The store after the row and the price record of an observation are written. */
  function Saved(s: Shop, p: Product, raw: Raw): Shop {
    if p.key !in s.rows then s.(rows := s.rows[p.key := p], nextId := s.nextId + 1)
    else
      match UpsertRow(s.rows, p)
      case None => s
      case Some(rows) =>
        var before := FillPrice(s.rows[p.key].info.price, raw.price);
        if raw.price.Some? && before.Some? && before.value != raw.price.value
        then s.(rows := rows, history := WithRecord(s.history, s.rows[p.key].id, before.value))
        else s.(rows := rows)
  }

  /**
   The store after an in-memory product is written that was merged into a copy found earlier, or
   created because none was found. The row may have changed since: a new product that meets one
   overwrites its columns, and the old price on record is that of the copy.
   */
  function SavedCopy(s: Shop, copy: Option<Product>, p: Product, raw: Raw): Shop {
    var rows := if UpsertRow(s.rows, p).Some? then UpsertRow(s.rows, p).value else s.rows;
    match copy
    case None => s.(rows := rows, nextId := s.nextId + 1)
    case Some(c) =>
      if UpsertRow(s.rows, p).Some? && OldPrice(c.info, raw).Some?
      then s.(rows := rows, history := WithRecord(s.history, c.id, OldPrice(c.info, raw).value))
      else s.(rows := rows)
  }

  /** The statement that marks a product, by tenant and identifier. */
  function MarkId(rows: map<Key, Product>, tenant: Uuid, id: Uuid, now: Time): map<Key, Product> {
    map k | k in rows :: if k.tenant == tenant && rows[k].id == id then rows[k].(syncedAt := Some(now)) else rows[k]
  }

  /** The visible rows of a tenant that have the identifier, which is at most one. */
  function VisibleById(rows: map<Key, Product>, tenant: Uuid, id: Uuid): set<Key> {
    set k | k in rows && k.tenant == tenant && rows[k].id == id && rows[k].hiddenAt.None?
  }

  /** The statements of a moderator, by tenant and identifier; they leave hidden rows alone. */
  function HideId(rows: map<Key, Product>, tenant: Uuid, id: Uuid, now: Time): map<Key, Product> {
    map k | k in rows :: if k in VisibleById(rows, tenant, id) then rows[k].(hiddenAt := Some(now)) else rows[k]
  }

  function BlockId(rows: map<Key, Product>, tenant: Uuid, id: Uuid, blocked: bool): map<Key, Product> {
    map k | k in rows :: if k in VisibleById(rows, tenant, id) then rows[k].(blocked := blocked) else rows[k]
  }

  /** Syncs an in-memory product, whatever has become of its row. */
  function SyncedCopy(s: Shop, p: Product, now: Time, sync: Option<Weather>): Shop {
    if sync.None? then s
    else
      var r := Sync(s.catalogue, p, sync.value);
      s.(catalogue := r.catalogue, rows := if r.marked then MarkId(s.rows, p.key.tenant, p.id, now) else s.rows)
  }

  /** The in-memory product that an observation leads to. */
  function InMemory(s: Shop, tenant: Uuid, source: Uuid, raw: Raw, now: Time): Product {
    var key := KeyOf(tenant, source, raw);
    if key in s.rows then s.rows[key].(info := Observed(s.rows[key].info, raw, now))
    else NewProduct(s.nextId, tenant, source, raw, now)
  }

  function AfterObserve(s: Shop, tenant: Uuid, source: Uuid, raw: Raw, now: Time, sync: Option<Weather>): Shop {
    if raw.title == "" then s
    else
      var p := InMemory(s, tenant, source, raw, now);
      TrySync(Saved(s, p, raw), p, now, sync)
  }

  function Step(s: Shop, op: Op): Shop {
    match op
    case Observe(tenant, source, raw, now, sync) => AfterObserve(s, tenant, source, raw, now, sync)
    case SyncRow(key, weather, now) => if key in s.rows then TrySync(s, s.rows[key], now, Some(weather)) else s
    case SetBlocked(key, blocked) =>
      if key in s.rows && s.rows[key].hiddenAt.None?
      then s.(rows := s.rows[key := s.rows[key].(blocked := blocked)]) else s
    case Hide(key, now) =>
      if key in s.rows && s.rows[key].hiddenAt.None?
      then s.(rows := s.rows[key := s.rows[key].(hiddenAt := Some(now))]) else s
  }

  function Run(s: Shop, ops: seq<Op>): Shop {
    if ops == [] then s else Step(Run(s, ops[..|ops| - 1]), ops[|ops| - 1])
  }

  // ---------------------------------------------------------------- well-formed stores

  /** Rows stand under their own keys and have identifiers of their own. */
  ghost predicate WellFormed(s: Shop) {
    && (forall k :: k in s.rows ==> s.rows[k].key == k && s.rows[k].id < s.nextId)
    && (forall k, l :: k in s.rows && l in s.rows && s.rows[k].id == s.rows[l].id ==> k == l)
    && (forall id :: id in s.history ==> id < s.nextId)
  }

  /** The one key whose row an operation may change. */
  function Subject(op: Op): Key {
    match op
    case Observe(tenant, source, raw, _, _) => KeyOf(tenant, source, raw)
    case SyncRow(key, _, _) => key
    case SetBlocked(key, _) => key
    case Hide(key, _) => key
  }

  /** The recorded old prices of the product under a key. */
  function PricesOf(s: Shop, k: Key): seq<int> {
    if k in s.rows then HistoryOf(s.history, s.rows[k].id) else []
  }

  lemma RowReplaced(s: Shop, t: Shop, p: Product)
    requires WellFormed(s) && p.key in s.rows && p.id == s.rows[p.key].id
    requires t.rows == s.rows[p.key := p] && t.history == s.history && t.nextId == s.nextId
    ensures WellFormed(t)
  {
  }

  /** Identifiers are unique, so marking by identifier marks the product's own row. */
  lemma MarkIdIsMarkRow(s: Shop, p: Product, now: Time)
    requires WellFormed(s) && p.key in s.rows && s.rows[p.key].id == p.id
    ensures MarkId(s.rows, p.key.tenant, p.id, now) == MarkRow(s.rows, p.key, now)
  {
  }

  /** Hiding and blocking by identifier are the operations on the row that has it. */
  lemma ModerationById(s: Shop, k: Key, now: Time, blocked: bool)
    requires WellFormed(s) && k in s.rows
    ensures VisibleById(s.rows, k.tenant, s.rows[k].id) == if s.rows[k].hiddenAt.None? then {k} else {}
    ensures s.(rows := HideId(s.rows, k.tenant, s.rows[k].id, now)) == Step(s, Hide(k, now))
    ensures s.(rows := BlockId(s.rows, k.tenant, s.rows[k].id, blocked)) == Step(s, SetBlocked(k, blocked))
  {
    assert HideId(s.rows, k.tenant, s.rows[k].id, now) == Step(s, Hide(k, now)).rows;
    assert BlockId(s.rows, k.tenant, s.rows[k].id, blocked) == Step(s, SetBlocked(k, blocked)).rows;
  }

  /** While its row is there, an in-memory product is synced as the row would be. */
  lemma SyncedCopyIsTrySync(s: Shop, p: Product, now: Time, sync: Option<Weather>)
    requires WellFormed(s) && p.key in s.rows && s.rows[p.key].id == p.id
    ensures SyncedCopy(s, p, now, sync) == TrySync(s, p, now, sync)
  {
    MarkIdIsMarkRow(s, p, now);
  }

  lemma RowAdded(s: Shop, t: Shop, p: Product)
    requires WellFormed(s) && p.key !in s.rows && p.id == s.nextId
    requires t.rows == s.rows[p.key := p] && t.history == s.history && t.nextId == s.nextId + 1
    ensures WellFormed(t) && PricesOf(t, p.key) == []
  {
  }

  lemma RecordAdded(s: Shop, t: Shop, key: Key, price: int)
    requires WellFormed(s) && key in s.rows
    requires t.rows == s.rows && t.nextId == s.nextId && t.history == WithRecord(s.history, s.rows[key].id, price)
    ensures WellFormed(t) && PricesOf(t, key) == PricesOf(s, key) + [price]
  {
  }

  lemma OtherPricesStay(s: Shop, t: Shop, key: Key, price: int, k: Key)
    requires WellFormed(s) && key in s.rows && k != key
    requires t.rows == s.rows && t.history == WithRecord(s.history, s.rows[key].id, price)
    ensures PricesOf(t, k) == PricesOf(s, k)
  {
  }

  /** A sync changes the catalogue and at most the mark of its product's row. */
  lemma SyncTouchesMarksOnly(s: Shop, p: Product, now: Time, sync: Option<Weather>)
    requires WellFormed(s)
    ensures WellFormed(TrySync(s, p, now, sync)) && TrySync(s, p, now, sync).history == s.history
    ensures TrySync(s, p, now, sync).rows == s.rows
            || (p.key in s.rows
                && TrySync(s, p, now, sync).rows == s.rows[p.key := s.rows[p.key].(syncedAt := Some(now))])
  {
    if p.key in s.rows && TrySync(s, p, now, sync).rows != s.rows {
      RowReplaced(s, TrySync(s, p, now, sync), s.rows[p.key].(syncedAt := Some(now)));
    }
  }

  /** The in-memory copy of a stored row differs from it only where the upsert writes. */
  lemma ObservedMerges(row: Info, raw: Raw, now: Time)
    ensures Merged(row, Observed(row, raw, now)) == Observed(row, raw, now)
  {
  }

  /** The old price that an observation moves to the history, if it changes the price. */
  function OldPrice(row: Info, raw: Raw): Option<int> {
    if raw.price.Some? && row.price.Some? && row.price.value != raw.price.value then row.price else None
  }

  /** A frozen row is refused; any other row becomes the in-memory copy. */
  lemma SavedExisting(s: Shop, p: Product, raw: Raw, now: Time)
    requires WellFormed(s) && p.key in s.rows && p == s.rows[p.key].(info := Observed(s.rows[p.key].info, raw, now))
    ensures WellFormed(Saved(s, p, raw)) && Saved(s, p, raw).catalogue == s.catalogue
    ensures Frozen(s.rows[p.key]) ==> Saved(s, p, raw) == s
    ensures !Frozen(s.rows[p.key]) ==>
              && Saved(s, p, raw).rows == s.rows[p.key := p]
              && PricesOf(Saved(s, p, raw), p.key)
                 == PricesOf(s, p.key) + (match OldPrice(s.rows[p.key].info, raw) case Some(c) => [c] case None => [])
  {
    if !Frozen(s.rows[p.key]) {
      SavedIsPut(s, p, raw, now);
      var put := s.(rows := s.rows[p.key := p]);
      RowReplaced(s, put, p);
      match OldPrice(s.rows[p.key].info, raw)
      case Some(c) => RecordAdded(put, Saved(s, p, raw), p.key, c);
      case None =>
    }
  }

  /** A write from a copy that is as the row is. */
  lemma FreshCopyIsSaved(s: Shop, copy: Product, p: Product, raw: Raw)
    requires copy.key in s.rows && s.rows[copy.key].id == copy.id && s.rows[copy.key].info == copy.info
    requires p.key == copy.key
    ensures SavedCopy(s, Some(copy), p, raw) == Saved(s, p, raw)
  {
  }

  /** Saving the in-memory copy of an unfrozen row puts it in the table, and its old price on record. */
  lemma SavedIsPut(s: Shop, p: Product, raw: Raw, now: Time)
    requires p.key in s.rows && p == s.rows[p.key].(info := Observed(s.rows[p.key].info, raw, now))
    requires !Frozen(s.rows[p.key])
    ensures var put := s.(rows := s.rows[p.key := p]);
            Saved(s, p, raw) == match OldPrice(s.rows[p.key].info, raw)
                                case Some(c) => put.(history := WithRecord(s.history, p.id, c))
                                case None => put
  {
    ObservedMerges(s.rows[p.key].info, raw, now);
  }

  lemma SavedElsewhere(s: Shop, p: Product, raw: Raw, now: Time, k: Key)
    requires WellFormed(s) && p.key in s.rows && p == s.rows[p.key].(info := Observed(s.rows[p.key].info, raw, now))
    requires k != p.key
    ensures k in Saved(s, p, raw).rows <==> k in s.rows
    ensures k in s.rows ==> Saved(s, p, raw).rows[k] == s.rows[k]
    ensures PricesOf(Saved(s, p, raw), k) == PricesOf(s, k)
  {
    ObservedMerges(s.rows[p.key].info, raw, now);
    if !Frozen(s.rows[p.key]) {
      var put := s.(rows := s.rows[p.key := p]);
      RowReplaced(s, put, p);
      match OldPrice(s.rows[p.key].info, raw)
      case Some(c) => OtherPricesStay(put, Saved(s, p, raw), p.key, c, k);
      case None =>
    }
  }

  lemma ObserveKeepsWellFormed(s: Shop, op: Op)
    requires WellFormed(s) && op.Observe?
    ensures WellFormed(Step(s, op))
  {
    if op.raw.title != "" {
      var p := InMemory(s, op.tenant, op.source, op.raw, op.now);
      if p.key in s.rows {
        SavedExisting(s, p, op.raw, op.now);
      } else {
        RowAdded(s, Saved(s, p, op.raw), p);
      }
      SyncTouchesMarksOnly(Saved(s, p, op.raw), p, op.now, op.sync);
    }
  }

  lemma StepKeepsWellFormed(s: Shop, op: Op)
    requires WellFormed(s)
    ensures WellFormed(Step(s, op))
  {
    match op
    case Observe(_, _, _, _, _) => ObserveKeepsWellFormed(s, op);
    case SyncRow(key, weather, now) =>
      if key in s.rows {
        SyncTouchesMarksOnly(s, s.rows[key], now, Some(weather));
      }
    case SetBlocked(key, blocked) =>
      if key in s.rows && s.rows[key].hiddenAt.None? {
        RowReplaced(s, Step(s, op), s.rows[key].(blocked := blocked));
      }
    case Hide(key, now) =>
      if key in s.rows && s.rows[key].hiddenAt.None? {
        RowReplaced(s, Step(s, op), s.rows[key].(hiddenAt := Some(now)));
      }
  }

  /** An operation leaves every other row, and its history, as it was. */
  lemma StepElsewhere(s: Shop, op: Op, k: Key)
    requires WellFormed(s) && k != Subject(op)
    ensures k in Step(s, op).rows <==> k in s.rows
    ensures k in s.rows ==> Step(s, op).rows[k] == s.rows[k]
    ensures PricesOf(Step(s, op), k) == PricesOf(s, k)
  {
    if op.Observe? && op.raw.title != "" {
      var p := InMemory(s, op.tenant, op.source, op.raw, op.now);
      if p.key in s.rows {
        SavedExisting(s, p, op.raw, op.now);
        SavedElsewhere(s, p, op.raw, op.now, k);
      } else {
        RowAdded(s, Saved(s, p, op.raw), p);
      }
      SyncTouchesMarksOnly(Saved(s, p, op.raw), p, op.now, op.sync);
    }
  }

  lemma {:induction false} RunKeepsWellFormed(s: Shop, ops: seq<Op>)
    requires WellFormed(s)
    ensures WellFormed(Run(s, ops))
  {
    if ops != [] {
      RunKeepsWellFormed(s, ops[..|ops| - 1]);
      StepKeepsWellFormed(Run(s, ops[..|ops| - 1]), ops[|ops| - 1]);
    }
  }
}
