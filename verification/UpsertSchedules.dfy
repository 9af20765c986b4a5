/**
 Which interleavings of finds and writes of one product are harmless: exactly those in which nobody
 writes between a worker's find and its write.
 */
module UpsertSchedules {
  import opened Prelude
  import opened RawProducts
  import opened Products
  import opened Catalogues
  import opened Shops
  import opened PriceTrails
  import opened UpsertRaces

  /** One statement of the upsert of observation u of the product; a worker may have any number of them. */
  datatype Slot = Reads(u: nat) | Writes(u: nat) | Syncs(u: nat)

  /** The statement comes for the first time, and after those that precede it in an upsert. */
  predicate IsInOrder(slots: seq<Slot>, j: nat)
    requires j < |slots|
  {
    && slots[j] !in slots[..j]
    && (slots[j].Writes? ==> Reads(slots[j].u) in slots[..j])
    && (slots[j].Syncs? ==> Writes(slots[j].u) in slots[..j])
  }

  /** Each observation is found, written and synced at most once, in this order. */
  ghost predicate IsSchedule(slots: seq<Slot>) {
    forall j: nat :: j < |slots| ==> IsInOrder(slots, j)
  }

  /** Everything about a schedule that is not its order. */
  datatype Given = Given(
    tenant: Uuid,
    source: Uuid,
    raw: nat -> Raw,
    now: nat -> Time,
    sync: nat -> Option<Weather>
  )

  /** Somebody writes between a worker's find and its write. */
  ghost predicate Overlaps(slots: seq<Slot>, a: nat, b: nat, c: nat) {
    a < b < c < |slots| && slots[b].Writes? && slots[c].Writes? && slots[a] == Reads(slots[c].u)
  }

  ghost predicate IsSerial(slots: seq<Slot>) {
    forall a: nat, b: nat, c: nat :: !Overlaps(slots, a, b, c)
  }

  function ToEvent(slot: Slot, g: Given): Event {
    match slot
    case Reads(u) => Find(u, g.tenant, g.source, g.raw(u), g.now(u))
    case Writes(u) => Save(u)
    case Syncs(u) => SyncCopy(u, g.sync(u), g.now(u))
  }

  /** The events of a schedule. */
  function ToEvents(slots: seq<Slot>, g: Given): seq<Event> {
    seq(|slots|, i requires 0 <= i < |slots| => ToEvent(slots[i], g))
  }

  /** All workers have observations of one product. */
  ghost predicate OfProduct(g: Given, title: string, url: string) {
    title != "" && forall u :: g.raw(u).title == title && g.raw(u).url == url
  }

  function ProductKey(g: Given, title: string, url: string): Key {
    Key(g.tenant, g.source, title + ":" + url)
  }

  /** After the first n slots, row and history are the fold of the observations written. */
  ghost predicate FoldsAfter(catalogue: Catalogue, slots: seq<Slot>, g: Given, k: Key, n: nat)
    requires n <= |slots|
  {
    var events := ToEvents(slots, g)[..n];
    KeyFolds(Play(catalogue, events).shop, k, AllTaken(catalogue, events, k))
  }

  /** Whatever was observed, and when, the fold holds at every point of the schedule. */
  ghost predicate AlwaysFolds(catalogue: Catalogue, slots: seq<Slot>) {
    forall g: Given, title: string, url: string, n: nat ::
      OfProduct(g, title, url) && n <= |slots| ==> FoldsAfter(catalogue, slots, g, ProductKey(g, title, url), n)
  }

  // ---------------------------------------------------------------- serial schedules fold

  lemma SerialHasNoOverlap(catalogue: Catalogue, slots: seq<Slot>, g: Given, k: Key)
    requires IsSerial(slots)
    ensures NoOverlap(catalogue, ToEvents(slots, g), k)
  {
    var events := ToEvents(slots, g);
    forall a: nat, b: nat, c: nat
      ensures !OverlapAt(catalogue, events, k, a, b, c)
    {
      assert !Overlaps(slots, a, b, c);
    }
  }

  lemma SerialFolds(catalogue: Catalogue, slots: seq<Slot>, g: Given, k: Key, n: nat)
    requires IsSerial(slots) && n <= |slots|
    ensures FoldsAfter(catalogue, slots, g, k, n)
  {
    var events := ToEvents(slots, g);
    SerialHasNoOverlap(catalogue, slots, g, k);
    FrontHasNoOverlap(catalogue, events, n, k);
    FoldWithoutOverlap(catalogue, events[..n], k);
  }

  // ---------------------------------------------------------------- others do not

  /** How far the upsert of an observation has come. */
  datatype Stage = Absent | Found | Saved | Done

  function StageOf(slots: seq<Slot>, n: nat, u: nat): Stage
    requires n <= |slots|
  {
    if Syncs(u) in slots[..n] then Done
    else if Writes(u) in slots[..n] then Saved
    else if Reads(u) in slots[..n] then Found
    else Absent
  }

  predicate HoldsFound(w: Writer, g: Given, u: nat) {
    w.Reading? && w.tenant == g.tenant && w.source == g.source && w.now == g.now(u) && w.raw == g.raw(u)
  }

  predicate StandsAt(s: State, g: Given, u: nat, stage: Stage) {
    match stage
    case Absent => u !in s.writers
    case Found => u in s.writers && HoldsFound(s.writers[u], g, u)
    case Saved => u in s.writers && s.writers[u].Syncing?
    case Done => u !in s.writers
  }

  predicate HasNoFrozen(rows: map<Key, Product>) {
    forall k :: k in rows ==> !Frozen(rows[k])
  }

  /** After n slots: who holds what, and that nothing is blocked or hidden. */
  ghost predicate IsUnderWay(s: State, slots: seq<Slot>, g: Given, n: nat)
    requires n <= |slots|
  {
    HasNoFrozen(s.shop.rows) && forall u :: StandsAt(s, g, u, StageOf(slots, n, u))
  }

  lemma NotInFront(slots: seq<Slot>, n: nat, c: nat)
    requires IsSchedule(slots) && n <= c < |slots|
    ensures slots[c] !in slots[..n]
  {
    assert IsInOrder(slots, c) && slots[..n] <= slots[..c];
  }

  lemma Different(slots: seq<Slot>, i: nat, j: nat)
    requires IsSchedule(slots) && i < j < |slots|
    ensures slots[i] != slots[j]
  {
    NotInFront(slots, j, j);
    assert slots[..j][i] == slots[i];
  }

  lemma WrittenWasRead(slots: seq<Slot>, n: nat, u: nat)
    requires n <= |slots| && IsSchedule(slots)
    ensures Writes(u) in slots[..n] ==> Reads(u) in slots[..n]
    ensures Syncs(u) in slots[..n] ==> Writes(u) in slots[..n]
  {
    if Writes(u) in slots[..n] {
      var j: nat :| j < n && slots[j] == Writes(u);
      assert IsInOrder(slots, j) && slots[..j] <= slots[..n];
    }
    if Syncs(u) in slots[..n] {
      var j: nat :| j < n && slots[j] == Syncs(u);
      assert IsInOrder(slots, j) && slots[..j] <= slots[..n];
    }
  }

  /** A slot takes its observation one stage further, and no other. */
  lemma StageNext(slots: seq<Slot>, n: nat, u: nat)
    requires IsSchedule(slots) && n < |slots|
    ensures slots[n].u != u ==> StageOf(slots, n + 1, u) == StageOf(slots, n, u)
    ensures slots[n] == Reads(u) ==> StageOf(slots, n, u) == Absent && StageOf(slots, n + 1, u) == Found
    ensures slots[n] == Writes(u) ==> StageOf(slots, n, u) == Found && StageOf(slots, n + 1, u) == Saved
    ensures slots[n] == Syncs(u) ==> StageOf(slots, n, u) == Saved && StageOf(slots, n + 1, u) == Done
  {
    assert slots[..n + 1] == slots[..n] + [slots[n]];
    assert IsInOrder(slots, n);
    WrittenWasRead(slots, n, u);
  }

  /** The writers of two states differ at most in what u holds. */
  predicate DifferAt(before: map<nat, Writer>, after: map<nat, Writer>, u: nat) {
    && (forall v :: v in before && v != u ==> v in after && after[v] == before[v])
    && (forall v :: v in after && v != u ==> v in before)
  }

  lemma OthersStand(s: State, t: State, slots: seq<Slot>, g: Given, n: nat)
    requires IsSchedule(slots) && n < |slots| && IsUnderWay(s, slots, g, n) && HasNoFrozen(t.shop.rows)
    requires DifferAt(s.writers, t.writers, slots[n].u)
    requires StandsAt(t, g, slots[n].u, StageOf(slots, n + 1, slots[n].u))
    ensures IsUnderWay(t, slots, g, n + 1)
  {
    var m := n + 1;
    forall u
      ensures StandsAt(t, g, u, StageOf(slots, m, u))
    {
      StageNext(slots, n, u);
      assert StandsAt(s, g, u, StageOf(slots, n, u));
    }
  }

  /** Without frozen rows a write takes effect, and freezes none. */
  lemma SaveTakesEffect(s: State, u: nat)
    requires Enabled(s, Save(u)) && HasNoFrozen(s.shop.rows) && CopyOfRow(s.shop.rows, s.writers[u])
    ensures var w := s.writers[u];
            var t := Next(s, Save(u));
            && UpsertRow(s.shop.rows, InWriter(s.shop, w)).Some? && HasNoFrozen(t.shop.rows)
            && t.writers == s.writers[u := Syncing(InWriter(s.shop, w))]
  {
  }

  lemma SyncFreezesNone(s: Shop, p: Product, now: Time, sync: Option<Weather>)
    requires HasNoFrozen(s.rows)
    ensures HasNoFrozen(SyncedCopy(s, p, now, sync).rows)
  {
  }

  /** Who acts next is where it has to be. */
  lemma StandsBefore(s: State, slots: seq<Slot>, g: Given, n: nat)
    requires IsSchedule(slots) && n < |slots| && IsUnderWay(s, slots, g, n)
    ensures var u := slots[n].u;
            match slots[n]
            case Reads(_) => u !in s.writers
            case Writes(_) => u in s.writers && HoldsFound(s.writers[u], g, u)
            case Syncs(_) => u in s.writers && s.writers[u].Syncing?
  {
    StageNext(slots, n, slots[n].u);
    assert StandsAt(s, g, slots[n].u, StageOf(slots, n, slots[n].u));
  }

  lemma ReadsNext(s: State, slots: seq<Slot>, g: Given, n: nat, title: string, url: string)
    requires IsSchedule(slots) && OfProduct(g, title, url) && n < |slots| && slots[n].Reads?
    requires IsUnderWay(s, slots, g, n)
    ensures Enabled(s, ToEvent(slots[n], g)) && IsUnderWay(Next(s, ToEvent(slots[n], g)), slots, g, n + 1)
  {
    StandsBefore(s, slots, g, n);
    StageNext(slots, n, slots[n].u);
    OthersStand(s, Next(s, ToEvent(slots[n], g)), slots, g, n);
  }

  lemma WritesNext(s: State, slots: seq<Slot>, g: Given, n: nat)
    requires IsSchedule(slots) && n < |slots| && slots[n].Writes? && IsUnderWay(s, slots, g, n) && Sound(s)
    ensures Enabled(s, ToEvent(slots[n], g)) && IsUnderWay(Next(s, ToEvent(slots[n], g)), slots, g, n + 1)
    ensures UpsertRow(s.shop.rows, InWriter(s.shop, s.writers[slots[n].u])).Some?
  {
    StandsBefore(s, slots, g, n);
    SaveTakesEffect(s, slots[n].u);
    StageNext(slots, n, slots[n].u);
    OthersStand(s, Next(s, ToEvent(slots[n], g)), slots, g, n);
  }

  lemma SyncsNext(s: State, slots: seq<Slot>, g: Given, n: nat)
    requires IsSchedule(slots) && n < |slots| && slots[n].Syncs? && IsUnderWay(s, slots, g, n)
    ensures Enabled(s, ToEvent(slots[n], g)) && IsUnderWay(Next(s, ToEvent(slots[n], g)), slots, g, n + 1)
  {
    var u := slots[n].u;
    StandsBefore(s, slots, g, n);
    SyncFreezesNone(s.shop, s.writers[u].product, g.now(u), g.sync(u));
    StageNext(slots, n, u);
    OthersStand(s, Next(s, ToEvent(slots[n], g)), slots, g, n);
  }

  lemma EventsInFront(slots: seq<Slot>, g: Given, n: nat)
    requires n < |slots|
    ensures ToEvents(slots, g)[..n + 1][..n] == ToEvents(slots, g)[..n]
    ensures ToEvents(slots, g)[n] == ToEvent(slots[n], g)
  {
  }

  /** The state after n slots. */
  function StateAfter(catalogue: Catalogue, slots: seq<Slot>, g: Given, n: nat): State
    requires n <= |slots|
  {
    Play(catalogue, ToEvents(slots, g)[..n])
  }

  /** A write takes effect, and is of what its worker observed. */
  lemma WriteIsTaken(s: State, slots: seq<Slot>, g: Given, title: string, url: string, n: nat)
    requires IsSchedule(slots) && OfProduct(g, title, url) && n < |slots| && slots[n].Writes?
    requires IsUnderWay(s, slots, g, n) && Sound(s)
    ensures Taken(s, ToEvent(slots[n], g), ProductKey(g, title, url)) == [g.raw(slots[n].u)]
  {
    StandsBefore(s, slots, g, n);
    WritesNext(s, slots, g, n);
  }

  lemma SlotIsNext(s: State, slots: seq<Slot>, g: Given, title: string, url: string, n: nat)
    requires IsSchedule(slots) && OfProduct(g, title, url) && n < |slots| && IsUnderWay(s, slots, g, n)
    requires Sound(s)
    ensures Enabled(s, ToEvent(slots[n], g)) && IsUnderWay(Next(s, ToEvent(slots[n], g)), slots, g, n + 1)
  {
    match slots[n]
    case Reads(_) => ReadsNext(s, slots, g, n, title, url);
    case Writes(_) => WritesNext(s, slots, g, n);
    case Syncs(_) => SyncsNext(s, slots, g, n);
  }

  lemma NextState(catalogue: Catalogue, slots: seq<Slot>, g: Given, n: nat)
    requires n < |slots| && Enabled(StateAfter(catalogue, slots, g, n), ToEvent(slots[n], g))
    ensures StateAfter(catalogue, slots, g, n + 1)
         == Next(StateAfter(catalogue, slots, g, n), ToEvent(slots[n], g))
  {
    EventsInFront(slots, g, n);
  }

  ghost predicate UnderWayAfter(catalogue: Catalogue, slots: seq<Slot>, g: Given, n: nat)
    requires n <= |slots|
  {
    IsUnderWay(StateAfter(catalogue, slots, g, n), slots, g, n) && Sound(StateAfter(catalogue, slots, g, n))
  }

  lemma UnderWayOneMore(catalogue: Catalogue, slots: seq<Slot>, g: Given, title: string, url: string, n: nat)
    requires IsSchedule(slots) && OfProduct(g, title, url) && 0 < n <= |slots|
    requires UnderWayAfter(catalogue, slots, g, n - 1)
    ensures UnderWayAfter(catalogue, slots, g, n)
  {
    PlaySound(catalogue, ToEvents(slots, g)[..n]);
    SlotIsNext(StateAfter(catalogue, slots, g, n - 1), slots, g, title, url, n - 1);
    NextState(catalogue, slots, g, n - 1);
  }

  lemma {:induction false} UnderWay(catalogue: Catalogue, slots: seq<Slot>, g: Given, title: string,
                                    url: string, n: nat)
    requires IsSchedule(slots) && OfProduct(g, title, url) && n <= |slots|
    ensures UnderWayAfter(catalogue, slots, g, n)
  {
    if n > 0 {
      UnderWay(catalogue, slots, g, title, url, n - 1);
      UnderWayOneMore(catalogue, slots, g, title, url, n);
    }
  }

  /** Every slot of a schedule happens. */
  lemma SlotHappens(catalogue: Catalogue, slots: seq<Slot>, g: Given, title: string, url: string, n: nat)
    requires IsSchedule(slots) && OfProduct(g, title, url) && n < |slots|
    ensures var s := StateAfter(catalogue, slots, g, n);
            && IsUnderWay(s, slots, g, n) && Sound(s)
            && Enabled(s, ToEvent(slots[n], g))
            && StateAfter(catalogue, slots, g, n + 1) == Next(s, ToEvent(slots[n], g))
  {
    UnderWay(catalogue, slots, g, title, url, n);
    SlotIsNext(StateAfter(catalogue, slots, g, n), slots, g, title, url, n);
    NextState(catalogue, slots, g, n);
  }

  // ---------------------------------------------------------------- the image that is lost

  const BLANK := Raw("t", None, "u", "", "", "", "", "", "", None)

  /** Only observation v has an image, and there is no catalogue. */
  function OneImage(v: nat): Given {
    Given(0, 0, x => BLANK.(image := if x == v then "i" else ""), _ => 0, _ => None)
  }

  ghost predicate IsOneImage(g: Given, v: nat) {
    && OfProduct(g, "t", "u") && g.raw(v).image != ""
    && (forall u: nat :: u != v ==> g.raw(u).image == "")
    && (forall u: nat :: g.sync(u) == None)
  }

  predicate BlankCopy(w: Writer) {
    w.Reading? && w.copy.Some? ==> w.copy.value.info.image == ""
  }

  ghost predicate AllBlank(s: State) {
    && (forall k :: k in s.shop.rows ==> s.shop.rows[k].info.image == "")
    && (forall u :: u in s.writers ==> BlankCopy(s.writers[u]))
  }

  /** Writing from a blank copy without an image leaves the row without one. */
  lemma BlankSave(s: State, u: nat)
    requires Enabled(s, Save(u)) && BlankCopy(s.writers[u]) && s.writers[u].raw.image == ""
    requires UpsertRow(s.shop.rows, InWriter(s.shop, s.writers[u])).Some? && CopyOfRow(s.shop.rows, s.writers[u])
    ensures var k := KeyBeingWritten(s.writers[u]);
            var rows := Next(s, Save(u)).shop.rows;
            k in rows && rows == s.shop.rows[k := rows[k]] && rows[k].info.image == ""
  {
  }

  /** A write of an observation other than v. */
  lemma BlankWrite(s: State, slots: seq<Slot>, g: Given, v: nat, n: nat)
    requires IsSchedule(slots) && n < |slots| && slots[n].Writes? && slots[n].u != v
    requires IsOneImage(g, v) && IsUnderWay(s, slots, g, n) && Sound(s)
    requires slots[n].u in s.writers && BlankCopy(s.writers[slots[n].u])
    ensures Enabled(s, Save(slots[n].u))
    ensures var t := Next(s, Save(slots[n].u)).shop.rows;
            && ProductKey(g, "t", "u") in t && t[ProductKey(g, "t", "u")].info.image == ""
            && t == s.shop.rows[ProductKey(g, "t", "u") := t[ProductKey(g, "t", "u")]]
  {
    StandsBefore(s, slots, g, n);
    WritesNext(s, slots, g, n);
    BlankSave(s, slots[n].u);
  }

  lemma BlankFind(s: State, e: Event)
    requires AllBlank(s) && Enabled(s, e) && (e.Find? || (e.SyncCopy? && e.sync == None))
    ensures AllBlank(Next(s, e))
  {
  }

  /** Observations other than v keep a blank store blank. */
  lemma BlankNext(s: State, slots: seq<Slot>, g: Given, v: nat, n: nat)
    requires IsSchedule(slots) && n < |slots| && slots[n] != Writes(v)
    requires IsOneImage(g, v) && IsUnderWay(s, slots, g, n) && Sound(s) && AllBlank(s)
    requires Enabled(s, ToEvent(slots[n], g))
    ensures AllBlank(Next(s, ToEvent(slots[n], g)))
  {
    if slots[n].Writes? {
      BlankWrite(s, slots, g, v, n);
    } else {
      BlankFind(s, ToEvent(slots[n], g));
    }
  }

  lemma BlankLater(catalogue: Catalogue, slots: seq<Slot>, g: Given, v: nat, n: nat)
    requires IsSchedule(slots) && IsOneImage(g, v) && n < |slots| && slots[n] != Writes(v)
    requires AllBlank(StateAfter(catalogue, slots, g, n))
    ensures AllBlank(StateAfter(catalogue, slots, g, n + 1))
  {
    SlotHappens(catalogue, slots, g, "t", "u", n);
    BlankNext(StateAfter(catalogue, slots, g, n), slots, g, v, n);
  }

  lemma {:induction false} BlankUntil(catalogue: Catalogue, slots: seq<Slot>, g: Given, v: nat, b: nat, n: nat)
    requires IsSchedule(slots) && IsOneImage(g, v) && n <= b < |slots| && slots[b] == Writes(v)
    ensures AllBlank(StateAfter(catalogue, slots, g, n))
  {
    if n > 0 {
      BlankUntil(catalogue, slots, g, v, b, n - 1);
      Different(slots, n - 1, b);
      BlankLater(catalogue, slots, g, v, n - 1);
    }
  }

  /** Between find and write a worker holds what it found. */
  lemma StillReading(s: State, slots: seq<Slot>, g: Given, a: nat, c: nat, n: nat)
    requires IsSchedule(slots) && a < n <= c < |slots| && slots[c].Writes? && slots[a] == Reads(slots[c].u)
    requires IsUnderWay(s, slots, g, n)
    ensures slots[c].u in s.writers && s.writers[slots[c].u].Reading?
  {
    assert slots[..n][a] == slots[a];
    NotInFront(slots, n, c);
    WrittenWasRead(slots, n, slots[c].u);
    assert StandsAt(s, g, slots[c].u, StageOf(slots, n, slots[c].u));
  }

  ghost predicate HoldsBlank(s: State, u: nat) {
    u in s.writers && BlankCopy(s.writers[u])
  }

  ghost predicate HoldsBlankAfter(catalogue: Catalogue, slots: seq<Slot>, g: Given, n: nat, u: nat)
    requires n <= |slots|
  {
    HoldsBlank(StateAfter(catalogue, slots, g, n), u)
  }

  lemma BlankAtFind(catalogue: Catalogue, slots: seq<Slot>, g: Given, v: nat, a: nat, b: nat, c: nat)
    requires IsSchedule(slots) && IsOneImage(g, v) && Overlaps(slots, a, b, c) && slots[b] == Writes(v)
    ensures HoldsBlankAfter(catalogue, slots, g, a + 1, slots[c].u)
  {
    BlankUntil(catalogue, slots, g, v, b, a + 1);
    UnderWay(catalogue, slots, g, "t", "u", a + 1);
    StillReading(StateAfter(catalogue, slots, g, a + 1), slots, g, a, c, a + 1);
  }

  lemma OthersLeaveIt(s: State, slot: Slot, g: Given, u: nat)
    requires slot.u != u && HoldsBlank(s, u) && Enabled(s, ToEvent(slot, g))
    ensures HoldsBlank(Next(s, ToEvent(slot, g)), u)
  {
  }

  lemma BlankInBetween(catalogue: Catalogue, slots: seq<Slot>, g: Given, v: nat, u: nat, n: nat)
    requires IsSchedule(slots) && IsOneImage(g, v) && 0 < n <= |slots| && slots[n - 1].u != u
    requires HoldsBlankAfter(catalogue, slots, g, n - 1, u)
    ensures HoldsBlankAfter(catalogue, slots, g, n, u)
  {
    var s, t := StateAfter(catalogue, slots, g, n - 1), StateAfter(catalogue, slots, g, n);
    SlotHappens(catalogue, slots, g, "t", "u", n - 1);
    OthersLeaveIt(s, slots[n - 1], g, u);
    assert t == Next(s, ToEvent(slots[n - 1], g));
  }

  /** Between the find and the write of an observation only others act. */
  lemma OthersInBetween(slots: seq<Slot>, a: nat, c: nat, n: nat)
    requires IsSchedule(slots) && a < n < c < |slots| && slots[c].Writes? && slots[a] == Reads(slots[c].u)
    ensures slots[n].u != slots[c].u
  {
    Different(slots, a, n);
    Different(slots, n, c);
    NotInFront(slots, n, c);
    assert IsInOrder(slots, n);
  }

  /** Observation u is found before and written after observation v is written. */
  ghost predicate IsStale(slots: seq<Slot>, g: Given, v: nat, a: nat, b: nat, c: nat) {
    IsSchedule(slots) && IsOneImage(g, v) && Overlaps(slots, a, b, c) && slots[b] == Writes(v)
  }

  lemma StaysBlankOnce(catalogue: Catalogue, slots: seq<Slot>, g: Given, v: nat, a: nat, b: nat, c: nat, n: nat)
    requires IsStale(slots, g, v, a, b, c) && a + 1 < n <= c
    requires HoldsBlankAfter(catalogue, slots, g, n - 1, slots[c].u)
    ensures HoldsBlankAfter(catalogue, slots, g, n, slots[c].u)
  {
    OthersInBetween(slots, a, c, n - 1);
    BlankInBetween(catalogue, slots, g, v, slots[c].u, n);
  }

  /** Who found the product before observation v was written still holds a blank copy when writing. */
  lemma {:induction false} StaysBlank(catalogue: Catalogue, slots: seq<Slot>, g: Given, v: nat,
                                      a: nat, b: nat, c: nat, n: nat)
    requires IsStale(slots, g, v, a, b, c) && a < n <= c
    ensures HoldsBlankAfter(catalogue, slots, g, n, slots[c].u)
  {
    if n == a + 1 {
      BlankAtFind(catalogue, slots, g, v, a, b, c);
    } else {
      StaysBlank(catalogue, slots, g, v, a, b, c, n - 1);
      StaysBlankOnce(catalogue, slots, g, v, a, b, c, n);
    }
  }

  lemma {:induction false} TakenStays(catalogue: Catalogue, events: seq<Event>, k: Key, m: nat, n: nat, raw: Raw)
    requires m < n <= |events| && raw in Taken(Play(catalogue, events[..m]), events[m], k)
    ensures raw in AllTaken(catalogue, events[..n], k)
    decreases n
  {
    assert events[..n][..n - 1] == events[..n - 1];
    if m < n - 1 {
      TakenStays(catalogue, events, k, m, n - 1, raw);
    }
  }

  lemma {:induction false} SomeFilled(texts: seq<string>, i: nat)
    requires i < |texts| && texts[i] != ""
    ensures FirstFilled(texts) != ""
  {
    if i > 0 {
      SomeFilled(texts[1..], i - 1);
    }
  }

  lemma SomeImage(raws: seq<Raw>, raw: Raw)
    requires raw in raws && raw.image != ""
    ensures FirstFilled(Images(raws)) != ""
  {
    var i :| 0 <= i < |raws| && raws[i] == raw;
    SomeFilled(Images(raws), i);
  }

  /** Observation v has been written. */
  lemma ImageIsTaken(catalogue: Catalogue, slots: seq<Slot>, g: Given, v: nat, b: nat, n: nat)
    requires IsSchedule(slots) && IsOneImage(g, v) && b < n <= |slots| && slots[b] == Writes(v)
    ensures g.raw(v) in AllTaken(catalogue, ToEvents(slots, g)[..n], ProductKey(g, "t", "u"))
  {
    SlotHappens(catalogue, slots, g, "t", "u", b);
    WriteIsTaken(StateAfter(catalogue, slots, g, b), slots, g, "t", "u", b);
    TakenStays(catalogue, ToEvents(slots, g), ProductKey(g, "t", "u"), b, n, g.raw(v));
  }

  /** The stale write takes the image away again. */
  lemma StaleWriteIsBlank(catalogue: Catalogue, slots: seq<Slot>, g: Given, v: nat, a: nat, b: nat, c: nat)
    requires IsSchedule(slots) && IsOneImage(g, v) && Overlaps(slots, a, b, c) && slots[b] == Writes(v)
    ensures var rows := StateAfter(catalogue, slots, g, c + 1).shop.rows;
            ProductKey(g, "t", "u") in rows && rows[ProductKey(g, "t", "u")].info.image == ""
  {
    StaysBlank(catalogue, slots, g, v, a, b, c, c);
    SlotHappens(catalogue, slots, g, "t", "u", c);
    Different(slots, b, c);
    BlankWrite(StateAfter(catalogue, slots, g, c), slots, g, v, c);
  }

  lemma ImageIsLost(catalogue: Catalogue, slots: seq<Slot>, g: Given, v: nat, a: nat, b: nat, c: nat)
    requires IsSchedule(slots) && IsOneImage(g, v) && Overlaps(slots, a, b, c) && slots[b] == Writes(v)
    ensures !FoldsAfter(catalogue, slots, g, ProductKey(g, "t", "u"), c + 1)
  {
    ImageIsTaken(catalogue, slots, g, v, b, c + 1);
    StaleWriteIsBlank(catalogue, slots, g, v, a, b, c);
    var raws := AllTaken(catalogue, ToEvents(slots, g)[..c + 1], ProductKey(g, "t", "u"));
    SomeImage(raws, g.raw(v));
    BlankIsNoFold(StateAfter(catalogue, slots, g, c + 1).shop, ProductKey(g, "t", "u"), raws);
  }

  lemma BlankIsNoFold(s: Shop, k: Key, raws: seq<Raw>)
    requires k in s.rows && s.rows[k].info.image == "" && FirstFilled(Images(raws)) != ""
    ensures !KeyFolds(s, k, raws)
  {
  }

  /**
   Exactly which schedules are harmless: whatever was observed, when, and whatever the catalogue does, row
   and history are the fold of the written observations at every point of the schedule, if and only if
   nobody writes between a find and the write that follows from it.
   */
  lemma FoldsIffSerial(catalogue: Catalogue, slots: seq<Slot>)
    requires IsSchedule(slots)
    ensures AlwaysFolds(catalogue, slots) <==> IsSerial(slots)
  {
    if IsSerial(slots) {
      forall g: Given, title: string, url: string, n: nat | OfProduct(g, title, url) && n <= |slots|
        ensures FoldsAfter(catalogue, slots, g, ProductKey(g, title, url), n)
      {
        SerialFolds(catalogue, slots, g, ProductKey(g, title, url), n);
      }
    } else {
      var a: nat, b: nat, c: nat :| Overlaps(slots, a, b, c);
      var v := slots[b].u;
      assert IsOneImage(OneImage(v), v);
      ImageIsLost(catalogue, slots, OneImage(v), v, a, b, c);
    }
  }

  // ---------------------------------------------------------------- one such run

  /** Two workers find the product before either writes it. */
  function BothFindFirst(): seq<Slot> {
    [Reads(0), Reads(1), Writes(0), Writes(1)]
  }

  /** The first writes an image, the second takes it away. */
  lemma SecondWriteLosesImage(catalogue: Catalogue)
    ensures IsSchedule(BothFindFirst()) && Overlaps(BothFindFirst(), 1, 2, 3)
    ensures var s := StateAfter(catalogue, BothFindFirst(), OneImage(0), 4);
            var k := ProductKey(OneImage(0), "t", "u");
            k in s.shop.rows && s.shop.rows[k].info.image == ""
    ensures OneImage(0).raw(0)
            in AllTaken(catalogue, ToEvents(BothFindFirst(), OneImage(0))[..4], ProductKey(OneImage(0), "t", "u"))
  {
    var slots := BothFindFirst();
    assert slots[..2][0] == Reads(0) && slots[..3][1] == Reads(1);
    assert IsSchedule(slots);
    ImageIsTaken(catalogue, slots, OneImage(0), 0, 2, 4);
    StaleWriteIsBlank(catalogue, slots, OneImage(0), 0, 1, 2, 3);
  }
}
