/**
 Blocked and hidden products, with workers at once: which of them are still sent to the catalogue. What
 a worker holds in memory is as it was read, whatever a moderator has done to its row since.
 */
module FrozenRaces {
  import opened Prelude
  import opened RawProducts
  import opened Products
  import opened Catalogues
  import opened Shops
  import opened PriceTrails
  import opened UpsertRaces

  // ---------------------------------------------------------------- who freezes a row

  predicate Freezes(e: Event, k: Key) {
    e.Moderate? && (e.op == SetBlocked(k, true) || (e.op.Hide? && e.op.key == k))
  }

  predicate IsFrozenIn(rows: map<Key, Product>, k: Key) {
    k in rows && Frozen(rows[k])
  }

  /** Event b blocks or hides a row that is there. */
  ghost predicate FreezesAt(catalogue: Catalogue, events: seq<Event>, k: Key, b: nat) {
    b < |events| && Freezes(events[b], k) && k in Play(catalogue, events[..b]).shop.rows
  }

  predicate Unfreezes(s: State, e: Event, k: Key) {
    e == Moderate(SetBlocked(k, false)) && k in s.shop.rows && s.shop.rows[k].hiddenAt.None?
  }

  ghost predicate UnfreezesAt(catalogue: Catalogue, events: seq<Event>, k: Key, c: nat) {
    c < |events| && Unfreezes(Play(catalogue, events[..c]), events[c], k)
  }

  /** Event b freezes the row, and no event before n unfreezes it. */
  ghost predicate FreezesUntil(catalogue: Catalogue, events: seq<Event>, k: Key, b: nat, n: nat) {
    b < n && FreezesAt(catalogue, events, k, b) && forall c :: b < c < n ==> !UnfreezesAt(catalogue, events, k, c)
  }

  lemma SaveLeavesFlags(s: Shop, w: Writer, k: Key)
    requires w.Reading? && CopyOfRow(s.rows, w)
    ensures IsFrozenIn(SavedCopy(s, w.copy, InWriter(s, w), w.raw).rows, k) <==> IsFrozenIn(s.rows, k)
  {
  }

  lemma SyncLeavesFlags(s: Shop, p: Product, now: Time, sync: Option<Weather>, k: Key)
    ensures IsFrozenIn(SyncedCopy(s, p, now, sync).rows, k) <==> IsFrozenIn(s.rows, k)
  {
  }

  lemma WorkersLeaveFlags(s: State, e: Event, k: Key)
    requires Sound(s) && Enabled(s, e) && !e.Moderate?
    ensures IsFrozenIn(Next(s, e).shop.rows, k) <==> IsFrozenIn(s.shop.rows, k)
  {
    match e
    case Find(_, _, _, _, _) =>
    case Load(_, _) =>
    case Save(u) => SaveLeavesFlags(s.shop, s.writers[u], k);
    case SyncCopy(u, sync, now) => SyncLeavesFlags(s.shop, s.writers[u].product, now, sync, k);
  }

  lemma ModeratorsSetFlags(s: Shop, op: Op, k: Key)
    requires WellFormed(s) && (op.SetBlocked? || op.Hide?)
    ensures IsFrozenIn(Step(s, op).rows, k)
       <==> || (k in s.rows && (op == SetBlocked(k, true) || (op.Hide? && op.key == k)))
            || (IsFrozenIn(s.rows, k) && !(op == SetBlocked(k, false) && s.rows[k].hiddenAt.None?))
  {
  }

  /** One event makes a row frozen, or leaves it so, exactly by what it does as a moderator. */
  lemma OnlyModeratorsFreeze(s: State, e: Event, k: Key)
    requires Sound(s) && Enabled(s, e)
    ensures IsFrozenIn(Next(s, e).shop.rows, k)
       <==> (Freezes(e, k) && k in s.shop.rows) || (IsFrozenIn(s.shop.rows, k) && !Unfreezes(s, e, k))
  {
    if e.Moderate? {
      ModeratorsSetFlags(s.shop, e.op, k);
    } else {
      WorkersLeaveFlags(s, e, k);
    }
  }

  lemma FrontFreezes(catalogue: Catalogue, events: seq<Event>, n: nat, k: Key, d: nat)
    requires d < n <= |events|
    ensures FreezesAt(catalogue, events[..n], k, d) <==> FreezesAt(catalogue, events, k, d)
    ensures UnfreezesAt(catalogue, events[..n], k, d) <==> UnfreezesAt(catalogue, events, k, d)
  {
    assert events[..n][..d] == events[..d];
  }

  lemma FrontFreezesUntil(catalogue: Catalogue, events: seq<Event>, n: nat, k: Key, b: nat)
    requires n <= |events|
    ensures FreezesUntil(catalogue, events[..n], k, b, n) <==> FreezesUntil(catalogue, events, k, b, n)
  {
    forall d | 0 <= d < n
      ensures FreezesAt(catalogue, events[..n], k, d) <==> FreezesAt(catalogue, events, k, d)
      ensures UnfreezesAt(catalogue, events[..n], k, d) <==> UnfreezesAt(catalogue, events, k, d)
    {
      FrontFreezes(catalogue, events, n, k, d);
    }
  }

  lemma FreezesOneMore(catalogue: Catalogue, events: seq<Event>, k: Key, b: nat, n: nat)
    requires n < |events|
    ensures FreezesUntil(catalogue, events, k, b, n + 1)
       <==> || (b == n && FreezesAt(catalogue, events, k, n))
            || (FreezesUntil(catalogue, events, k, b, n) && !UnfreezesAt(catalogue, events, k, n))
  {
  }

  /** Between event i and event n somebody froze the row for good. */
  ghost predicate IsFrozenSince(catalogue: Catalogue, events: seq<Event>, k: Key, i: nat, n: nat) {
    exists b: nat :: i <= b && FreezesUntil(catalogue, events, k, b, n)
  }

  lemma FrontFrozenSince(catalogue: Catalogue, events: seq<Event>, k: Key, i: nat, n: nat)
    requires n <= |events|
    ensures IsFrozenSince(catalogue, events[..n], k, i, n) <==> IsFrozenSince(catalogue, events, k, i, n)
  {
    forall b: nat
      ensures FreezesUntil(catalogue, events[..n], k, b, n) <==> FreezesUntil(catalogue, events, k, b, n)
    {
      FrontFreezesUntil(catalogue, events, n, k, b);
    }
  }

  lemma FrozenOneMore(catalogue: Catalogue, events: seq<Event>, k: Key, i: nat, n: nat)
    requires i <= n < |events|
    ensures IsFrozenSince(catalogue, events, k, i, n + 1)
       <==> || FreezesAt(catalogue, events, k, n)
            || (IsFrozenSince(catalogue, events, k, i, n) && !UnfreezesAt(catalogue, events, k, n))
  {
    if FreezesAt(catalogue, events, k, n) {
      assert FreezesUntil(catalogue, events, k, n, n + 1);
    } else if IsFrozenSince(catalogue, events, k, i, n) && !UnfreezesAt(catalogue, events, k, n) {
      var b: nat :| i <= b && FreezesUntil(catalogue, events, k, b, n);
      FreezesOneMore(catalogue, events, k, b, n);
    }
    if IsFrozenSince(catalogue, events, k, i, n + 1) {
      var b: nat :| i <= b && FreezesUntil(catalogue, events, k, b, n + 1);
      FreezesOneMore(catalogue, events, k, b, n);
    }
  }

  lemma FrozenNext(catalogue: Catalogue, events: seq<Event>, k: Key, n: nat)
    requires n + 1 == |events|
    ensures IsFrozenIn(Play(catalogue, events).shop.rows, k)
       <==> || FreezesAt(catalogue, events, k, n)
            || (IsFrozenIn(Play(catalogue, events[..n]).shop.rows, k) && !UnfreezesAt(catalogue, events, k, n))
  {
    PlaySound(catalogue, events[..n]);
    if Enabled(Play(catalogue, events[..n]), events[n]) {
      OnlyModeratorsFreeze(Play(catalogue, events[..n]), events[n], k);
    }
  }

  /** A row that is not frozen at event i is frozen at the end exactly if it was frozen since, for good. */
  lemma {:induction false} FrozenSinceIff(catalogue: Catalogue, events: seq<Event>, k: Key, i: nat)
    requires i <= |events| && !IsFrozenIn(Play(catalogue, events[..i]).shop.rows, k)
    ensures IsFrozenIn(Play(catalogue, events).shop.rows, k) <==> IsFrozenSince(catalogue, events, k, i, |events|)
    decreases |events|
  {
    var n := |events| - 1;
    if i == |events| {
      assert events[..i] == events;
    } else {
      assert events[..n][..i] == events[..i];
      FrozenSinceIff(catalogue, events[..n], k, i);
      FrontFrozenSince(catalogue, events, k, i, n);
      FrozenOneMore(catalogue, events, k, i, n);
      FrozenNext(catalogue, events, k, n);
    }
  }

  // ---------------------------------------------------------------- what a worker holds

  function KeyHeld(w: Writer): Key {
    if w.Reading? then KeyBeingWritten(w) else w.product.key
  }

  /** The product was blocked or hidden when it was read into memory. */
  predicate HoldsFrozen(w: Writer) {
    match w
    case Reading(_, _, _, _, copy) => copy.Some? && Frozen(copy.value)
    case Syncing(p) => Frozen(p)
  }

  /** One event either reads the product into the worker's memory, or keeps what it holds as it was read. */
  lemma HeldFlags(s: State, e: Event, u: nat)
    requires Sound(s) && Enabled(s, e) && u in Next(s, e).writers
    ensures var w := Next(s, e).writers[u];
            if (e.Find? || e.Load?) && e.u == u
            then HoldsFrozen(w) <==> IsFrozenIn(s.shop.rows, KeyHeld(w))
            else u in s.writers && KeyHeld(s.writers[u]) == KeyHeld(w)
                 && (HoldsFrozen(s.writers[u]) <==> HoldsFrozen(w))
  {
  }

  /** Event d happens, and reads a product into the worker's memory. */
  ghost predicate ReadsAt(catalogue: Catalogue, events: seq<Event>, u: nat, d: nat) {
    d < |events| && (events[d].Find? || events[d].Load?) && ActsAt(catalogue, events, u, d)
  }

  /** The worker's last read. */
  ghost predicate IsLastRead(catalogue: Catalogue, events: seq<Event>, u: nat, a: nat) {
    ReadsAt(catalogue, events, u, a) && forall d :: a < d < |events| ==> !ReadsAt(catalogue, events, u, d)
  }

  lemma LastReadStays(catalogue: Catalogue, events: seq<Event>, u: nat, a: nat)
    requires events != [] && IsLastRead(catalogue, events[..|events| - 1], u, a)
    requires !ReadsAt(catalogue, events, u, |events| - 1)
    ensures IsLastRead(catalogue, events, u, a)
  {
    forall d | a <= d < |events| - 1
      ensures ReadsAt(catalogue, events[..|events| - 1], u, d) <==> ReadsAt(catalogue, events, u, d)
    {
      FrontAgrees(catalogue, events, |events| - 1, Key(0, 0, ""), u, d);
    }
  }

  /** What a worker holds it took at its last read, and holds as frozen exactly if it was frozen then. */
  lemma {:induction false} ReadAt(catalogue: Catalogue, events: seq<Event>, u: nat) returns (a: nat)
    requires u in Play(catalogue, events).writers
    ensures IsLastRead(catalogue, events, u, a)
    ensures var w := Play(catalogue, events).writers[u];
            HoldsFrozen(w) <==> IsFrozenIn(Play(catalogue, events[..a]).shop.rows, KeyHeld(w))
  {
    var n := |events| - 1;
    var s := Play(catalogue, events[..n]);
    PlaySound(catalogue, events[..n]);
    if Enabled(s, events[n]) {
      HeldFlags(s, events[n], u);
    }
    if ReadsAt(catalogue, events, u, n) {
      a := n;
    } else {
      a := ReadAt(catalogue, events[..n], u);
      LastReadStays(catalogue, events, u, a);
      assert events[..n][..a] == events[..a];
    }
  }

  // ---------------------------------------------------------------- what is sent

  /** The product would be sent if it were neither blocked nor hidden. */
  predicate IsComplete(p: Product) {
    p.info.price.Some? && p.info.image != "" && p.info.category != "" && p.syncedAt.None?
  }

  /** What a worker is about to sync is sent exactly if it is complete and its row was not frozen when it was read. */
  lemma SentAsRead(catalogue: Catalogue, events: seq<Event>, u: nat) returns (a: nat)
    requires u in Play(catalogue, events).writers && Play(catalogue, events).writers[u].Syncing?
    ensures IsLastRead(catalogue, events, u, a)
    ensures var p := Play(catalogue, events).writers[u].product;
            NeedsSync(p) <==> IsComplete(p) && !IsFrozenIn(Play(catalogue, events[..a]).shop.rows, p.key)
  {
    a := ReadAt(catalogue, events, u);
  }

  /** Event d is a sync, with a catalogue, of the product p that its worker holds. */
  ghost predicate SyncsAt(catalogue: Catalogue, events: seq<Event>, d: nat, p: Product) {
    && d < |events| && events[d].SyncCopy? && events[d].sync.Some?
    && Enabled(Play(catalogue, events[..d]), events[d])
    && Play(catalogue, events[..d]).writers[events[d].u] == Syncing(p)
  }

  /** Event d sends a product whose row is blocked or hidden. */
  ghost predicate SendsFrozenAt(catalogue: Catalogue, events: seq<Event>, d: nat, p: Product) {
    && SyncsAt(catalogue, events, d, p) && NeedsSync(p)
    && IsFrozenIn(Play(catalogue, events[..d]).shop.rows, p.key)
  }

  /** The row of a complete product is frozen between the worker's last read of it, at a, and its sync, at d. */
  ghost predicate FrozenInBetween(catalogue: Catalogue, events: seq<Event>, a: nat, b: nat, d: nat, p: Product) {
    && SyncsAt(catalogue, events, d, p) && IsComplete(p)
    && IsLastRead(catalogue, events[..d], events[d].u, a)
    && !IsFrozenIn(Play(catalogue, events[..a]).shop.rows, p.key)
    && a < b && FreezesUntil(catalogue, events, p.key, b, d)
  }

  lemma OneLastRead(catalogue: Catalogue, events: seq<Event>, u: nat, a: nat, b: nat)
    requires IsLastRead(catalogue, events, u, a) && IsLastRead(catalogue, events, u, b)
    ensures a == b
  {
  }

  /** Read unfrozen at a: the row is frozen at d exactly if a moderator froze it after a, for good. */
  lemma FrozenAfterRead(catalogue: Catalogue, events: seq<Event>, k: Key, a: nat, d: nat)
    requires a < d <= |events| && (events[a].Find? || events[a].Load?)
    requires !IsFrozenIn(Play(catalogue, events[..a]).shop.rows, k)
    ensures IsFrozenIn(Play(catalogue, events[..d]).shop.rows, k) <==> IsFrozenSince(catalogue, events, k, a, d)
  {
    assert events[..d][..a] == events[..a];
    FrozenSinceIff(catalogue, events[..d], k, a);
    FrontFrozenSince(catalogue, events, k, a, d);
  }

  /** The sync d sends a complete product that a moderator froze after its worker's last read of it. */
  ghost predicate IsFrozenTooLate(catalogue: Catalogue, events: seq<Event>, d: nat, p: Product) {
    exists a: nat, b: nat :: FrozenInBetween(catalogue, events, a, b, d, p)
  }

  /** At a sync: what its worker's last read decides. */
  lemma SyncedAsRead(catalogue: Catalogue, events: seq<Event>, d: nat, p: Product) returns (a: nat)
    requires SyncsAt(catalogue, events, d, p)
    ensures a < d && IsLastRead(catalogue, events[..d], events[d].u, a) && (events[a].Find? || events[a].Load?)
    ensures SendsFrozenAt(catalogue, events, d, p)
       <==> && IsComplete(p) && !IsFrozenIn(Play(catalogue, events[..a]).shop.rows, p.key)
            && IsFrozenSince(catalogue, events, p.key, a, d)
  {
    a := SentAsRead(catalogue, events[..d], events[d].u);
    assert events[..d][..a] == events[..a];
    if !IsFrozenIn(Play(catalogue, events[..a]).shop.rows, p.key) {
      FrozenAfterRead(catalogue, events, p.key, a, d);
    }
  }

  /**
   With workers at once, exactly which blocked or hidden products are sent all the same: the complete
   ones whose row was not frozen at the worker's last read of it, and was frozen, for good, between that
   read and the sync.
   */
  lemma SentWhileFrozenIff(catalogue: Catalogue, events: seq<Event>, d: nat, p: Product)
    ensures SendsFrozenAt(catalogue, events, d, p) <==> IsFrozenTooLate(catalogue, events, d, p)
  {
    if SyncsAt(catalogue, events, d, p) {
      var a := SyncedAsRead(catalogue, events, d, p);
      if SendsFrozenAt(catalogue, events, d, p) {
        var b: nat :| a <= b && FreezesUntil(catalogue, events, p.key, b, d);
        assert FrozenInBetween(catalogue, events, a, b, d, p);
      }
      if IsFrozenTooLate(catalogue, events, d, p) {
        var x: nat, b: nat :| FrozenInBetween(catalogue, events, x, b, d, p);
        OneLastRead(catalogue, events[..d], events[d].u, a, x);
      }
    }
  }

  /** A whole run sends no frozen product exactly if no complete product is frozen between read and sync. */
  lemma NoneSentIff(catalogue: Catalogue, events: seq<Event>)
    ensures (forall d: nat, p: Product :: !SendsFrozenAt(catalogue, events, d, p))
       <==> (forall a: nat, b: nat, d: nat, p: Product :: !FrozenInBetween(catalogue, events, a, b, d, p))
  {
    if a: nat, b: nat, d: nat, p: Product :| FrozenInBetween(catalogue, events, a, b, d, p) {
      SentWhileFrozenIff(catalogue, events, d, p);
    }
    if d: nat, p: Product :| SendsFrozenAt(catalogue, events, d, p) {
      SentWhileFrozenIff(catalogue, events, d, p);
    }
  }

  // ---------------------------------------------------------------- two runs

  const READY := Raw("t", Some(1), "u", "i", "", "", "c", "", "", None)

  const READY_KEY := Key(0, 0, "t:u")

  /** A run that blocks a new product between its find and its sync. */
  function LateBlock(): seq<Event> {
    [Find(0, 0, 0, READY, 0), Save(0), Moderate(SetBlocked(READY_KEY, true)), SyncCopy(0, Some(FAIR), 0)]
  }

  lemma PlayOneMore(catalogue: Catalogue, events: seq<Event>, n: nat)
    requires n < |events|
    ensures var s := Play(catalogue, events[..n]);
            Play(catalogue, events[..n + 1]) == if Enabled(s, events[n]) then Next(s, events[n]) else s
  {
    assert events[..n + 1][..n] == events[..n];
  }

  /** In that run the product enters the catalogue although its row is blocked. */
  lemma LateBlockIsSent()
    ensures var before := Play([], LateBlock()[..3]);
            && IsFrozenIn(before.shop.rows, READY_KEY) && before.shop.catalogue == []
            && |Play([], LateBlock()).shop.catalogue| == 1
  {
    var events := LateBlock();
    assert READY.title + ":" + READY.url == "t:u";
    assert events[..0] == [];
    PlayOneMore([], events, 0);
    PlayOneMore([], events, 1);
    var p := NewProduct(0, 0, 0, READY, 0);
    assert Play([], events[..2]) == State(Shop(map[READY_KEY := p], map[], [], 1), map[0 := Syncing(p)]);
    PlayOneMore([], events, 2);
    PlayOneMore([], events, 3);
    assert events[..4] == events;
    assert FindExisting([], p, FAIR) == Ok(None);
  }

  /** A run in which a page of pending products is loaded, one of them blocked, and then the page synced. */
  function LateBlockOnPage(): seq<Event> {
    [Find(0, 0, 0, READY, 0), Save(0), SyncCopy(0, None, 0),
     Load(1, READY_KEY), Moderate(SetBlocked(READY_KEY, true)), SyncCopy(1, Some(FAIR), 0)]
  }

  lemma PageIsLoaded()
    ensures var p := NewProduct(0, 0, 0, READY, 0);
            Play([], LateBlockOnPage()[..4]) == State(Shop(map[READY_KEY := p], map[], [], 1), map[1 := Syncing(p)])
  {
    var events := LateBlockOnPage();
    assert READY.title + ":" + READY.url == "t:u";
    assert events[..0] == [];
    PlayOneMore([], events, 0);
    PlayOneMore([], events, 1);
    var p := NewProduct(0, 0, 0, READY, 0);
    assert Play([], events[..2]) == State(Shop(map[READY_KEY := p], map[], [], 1), map[0 := Syncing(p)]);
    PlayOneMore([], events, 2);
    PlayOneMore([], events, 3);
  }

  /** In that run, too, the product enters the catalogue although its row is blocked. */
  lemma LateBlockOnPageIsSent()
    ensures var before := Play([], LateBlockOnPage()[..5]);
            && IsFrozenIn(before.shop.rows, READY_KEY) && before.shop.catalogue == []
            && |Play([], LateBlockOnPage()).shop.catalogue| == 1
  {
    var events := LateBlockOnPage();
    PageIsLoaded();
    PlayOneMore([], events, 4);
    PlayOneMore([], events, 5);
    assert events[..6] == events;
    assert FindExisting([], NewProduct(0, 0, 0, READY, 0), FAIR) == Ok(None);
  }
}
