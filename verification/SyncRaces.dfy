/**
 Syncs of products of one name by several workers at once. A sync searches the catalogue by code, then by
 name, and then puts its product there, in three requests; other workers may act in between.
 */
module SyncRaces {
  import opened Prelude
  import opened Text
  import opened Products
  import opened Catalogues

  /** One request of a worker's sync. */
  datatype Slot = SearchesCode(u: nat) | SearchesName(u: nat) | Puts(u: nat)

  /** What a worker knows after its first and after its second search. */
  datatype Syncer = Coded(found: Option<nat>) | Targeted(found: Option<nat>)

  datatype State = State(catalogue: Catalogue, syncers: map<nat, Syncer>)

  /** Worker u syncs the product of attempt seen(u) in its weather; all products have one name and brand. */
  datatype Given = Given(seen: nat -> Attempt, title: string, brand: string)

  function SearchCode(c: Catalogue, a: Attempt): Result<Option<nat>, SyncError> {
    if HasCode(a.product) then Search(EanIndex(c, a.product.info.ean, 0), a.weather.eanSearch) else Ok(None)
  }

  function SearchName(c: Catalogue, a: Attempt): Result<Option<nat>, SyncError> {
    Search(NameIndex(c, a.product.info.title, a.product.info.brand, 0), a.weather.nameSearch)
  }

  /** Updates the entry that was found, or creates one, if the write takes effect. */
  function Put(c: Catalogue, a: Attempt, found: Option<nat>): Catalogue {
    if a.weather.write == NotApplied then c
    else
      match found
      case None => c + [NewEntry(a.product)]
      case Some(i) => if i < |c| then c[i := Patched(c[i], a.product)] else c
  }

  function AfterCode(s: State, u: nat, a: Attempt): State {
    match SearchCode(s.catalogue, a)
    case Ok(found) => s.(syncers := s.syncers[u := Coded(found)])
    case Err(_) => s
  }

  /** A worker whose first search found the product does no second one; an error ends the sync. */
  function AfterName(s: State, u: nat, a: Attempt): State {
    if u !in s.syncers || !s.syncers[u].Coded? then s
    else if s.syncers[u].found.Some? then s.(syncers := s.syncers[u := Targeted(s.syncers[u].found)])
    else
      match SearchName(s.catalogue, a)
      case Ok(found) => s.(syncers := s.syncers[u := Targeted(found)])
      case Err(_) => s.(syncers := s.syncers - {u})
  }

  function AfterPut(s: State, u: nat, a: Attempt): State {
    if u in s.syncers && s.syncers[u].Targeted?
    then State(Put(s.catalogue, a, s.syncers[u].found), s.syncers - {u})
    else s
  }

  function Next(s: State, g: Given, slot: Slot): State {
    match slot
    case SearchesCode(u) => AfterCode(s, u, g.seen(u))
    case SearchesName(u) => AfterName(s, u, g.seen(u))
    case Puts(u) => AfterPut(s, u, g.seen(u))
  }

  function PlayAll(c: Catalogue, g: Given, slots: seq<Slot>): State {
    if slots == [] then State(c, map[])
    else Next(PlayAll(c, g, slots[..|slots| - 1]), g, slots[|slots| - 1])
  }

  /** The state after the first n slots. */
  function Play(c: Catalogue, g: Given, slots: seq<Slot>, n: nat): State
    requires n <= |slots|
  {
    PlayAll(c, g, slots[..n])
  }

  lemma NextState(c: Catalogue, g: Given, slots: seq<Slot>, n: nat)
    requires n < |slots|
    ensures Play(c, g, slots, n + 1) == Next(Play(c, g, slots, n), g, slots[n])
  {
    assert slots[..n + 1][..n] == slots[..n];
  }

  /** What the two searches find, or the error that ends the sync. */
  lemma TwoSearches(c: Catalogue, u: nat, a: Attempt)
    ensures var s := AfterName(AfterCode(State(c, map[]), u, a), u, a);
            match FindExisting(c, a.product, a.weather)
            case Ok(found) => s == State(c, map[u := Targeted(found)])
            case Err(_) => s == State(c, map[])
  {
  }

  /** The three requests with nothing in between are one sync, in any weather. */
  lemma ThreeRequestsAreSync(c: Catalogue, g: Given, u: nat)
    requires NeedsSync(g.seen(u).product)
    ensures Play(c, g, [SearchesCode(u), SearchesName(u), Puts(u)], 3)
         == State(Sync(c, g.seen(u).product, g.seen(u).weather).catalogue, map[])
  {
    var slots := [SearchesCode(u), SearchesName(u), Puts(u)];
    var a := g.seen(u);
    NextState(c, g, slots, 0);
    NextState(c, g, slots, 1);
    NextState(c, g, slots, 2);
    TwoSearches(c, u, a);
    assert Play(c, g, slots, 3) == AfterPut(AfterName(AfterCode(State(c, map[]), u, a), u, a), u, a);
  }

  /** The request comes for the first time, and after those that precede it in a sync. */
  predicate IsInOrder(slots: seq<Slot>, j: nat)
    requires j < |slots|
  {
    && slots[j] !in slots[..j]
    && (slots[j].SearchesName? ==> SearchesCode(slots[j].u) in slots[..j])
    && (slots[j].Puts? ==> SearchesName(slots[j].u) in slots[..j])
  }

  /** Every worker makes each request at most once, in their order. */
  ghost predicate IsSchedule(slots: seq<Slot>) {
    forall j: nat :: j < |slots| ==> IsInOrder(slots, j)
  }

  /** Worker u's product needs a sync and has the name and brand, and a sync of it alone cannot duplicate a name. */
  predicate IsNamed(g: Given, u: nat) {
    var a := g.seen(u);
    && FoldedName(a.product.info.title) == FoldedName(g.title) && a.product.info.brand == g.brand
    && NeedsSync(a.product) && NameSafe(a.product, a.weather)
  }

  ghost predicate IsOfOneName(g: Given) {
    forall u :: IsNamed(g, u)
  }

  /** In a catalogue with these codes, and without the name, the worker's sync can only create. */
  predicate Creates(a: Attempt, codes: set<string>) {
    && !(HasCode(a.product) && a.weather.eanSearch == NoReply)
    && !(HasCode(a.product) && a.weather.eanSearch == Answered && a.product.info.ean in codes)
    && a.weather.nameSearch == Answered && a.weather.write != NotApplied
  }

  predicate PutsNew(slots: seq<Slot>, g: Given, codes: set<string>, d: nat) {
    d < |slots| && slots[d].Puts? && Creates(g.seen(slots[d].u), codes)
  }

  ghost predicate HasPut(slots: seq<Slot>, g: Given, codes: set<string>, n: nat) {
    exists d: nat :: d < n && PutsNew(slots, g, codes, d)
  }

  /** Of those who can only create, one searches by name before any of them puts, and puts after another. */
  ghost predicate Races(slots: seq<Slot>, g: Given, codes: set<string>, a: nat, b: nat, c: nat) {
    && a < b < c && PutsNew(slots, g, codes, b) && PutsNew(slots, g, codes, c)
    && slots[a] == SearchesName(slots[c].u) && !HasPut(slots, g, codes, a)
  }

  ghost predicate HasNoRace(slots: seq<Slot>, g: Given) {
    forall codes: set<string>, a: nat, b: nat, c: nat :: !Races(slots, g, codes, a, b, c)
  }

  ghost predicate AlwaysUnique(slots: seq<Slot>, g: Given) {
    forall c: Catalogue, n: nat :: UniqueNames(c) && n <= |slots| ==> UniqueNames(Play(c, g, slots, n).catalogue)
  }

  lemma OneMorePut(slots: seq<Slot>, g: Given, codes: set<string>, n: nat)
    ensures HasPut(slots, g, codes, n + 1) <==> HasPut(slots, g, codes, n) || PutsNew(slots, g, codes, n)
  {
    if HasPut(slots, g, codes, n) {
      var d: nat :| d < n && PutsNew(slots, g, codes, d);
      assert PutsNew(slots, g, codes, d);
    }
  }

  // ---------------------------------------------------------------- the catalogue

  /** The entries of c are still there, under their codes, names and brands. */
  predicate Extends(c: Catalogue, d: Catalogue) {
    |c| <= |d| && forall i :: 0 <= i < |c| ==>
                                d[i].ean == c[i].ean && d[i].name == c[i].name && d[i].brand == c[i].brand
  }

  predicate HasName(c: Catalogue, g: Given) {
    exists i :: 0 <= i < |c| && NameMatches(c[i], g.title, g.brand)
  }

  function CodesOf(c: Catalogue): set<string> {
    set i | 0 <= i < |c| :: c[i].ean
  }

  lemma NameIsFound(c: Catalogue, g: Given, u: nat)
    requires IsOfOneName(g)
    ensures NameIndex(c, g.seen(u).product.info.title, g.seen(u).product.info.brand, 0).Some? <==> HasName(c, g)
  {
    var p := g.seen(u).product;
    assert IsNamed(g, u);
    NameIndexFinds(c, p.info.title, p.info.brand, 0);
    assert forall i :: 0 <= i < |c| ==>
                         (NameMatches(c[i], p.info.title, p.info.brand) <==> NameMatches(c[i], g.title, g.brand));
  }

  /** What the catalogue is: that of the start with entries of the name added. */
  ghost predicate IsGrown(start: Catalogue, now: Catalogue, g: Given) {
    && Extends(start, now)
    && forall i :: |start| <= i < |now| ==> FoldedName(now[i].name) == FoldedName(g.title) && now[i].brand == g.brand
  }

  lemma GrownHasName(start: Catalogue, now: Catalogue, g: Given)
    requires IsGrown(start, now, g)
    ensures HasName(now, g) <==> HasName(start, g) || |now| > |start|
  {
    if HasName(start, g) {
      var i :| 0 <= i < |start| && NameMatches(start[i], g.title, g.brand);
      assert NameMatches(now[i], g.title, g.brand);
    }
    if |now| > |start| {
      assert NameMatches(now[|start|], g.title, g.brand);
    }
    if HasName(now, g) {
      var i :| 0 <= i < |now| && NameMatches(now[i], g.title, g.brand);
      assert i < |start| ==> NameMatches(start[i], g.title, g.brand);
    }
  }

  lemma PutGrows(start: Catalogue, now: Catalogue, g: Given, u: nat, found: Option<nat>)
    requires IsOfOneName(g) && IsGrown(start, now, g)
    ensures IsGrown(start, Put(now, g.seen(u), found), g)
    ensures |Put(now, g.seen(u), found)|
         == |now| + if found.None? && g.seen(u).weather.write != NotApplied then 1 else 0
  {
    assert IsNamed(g, u);
  }

  // ---------------------------------------------------------------- what every request keeps

  ghost predicate SearchedFirst(slots: seq<Slot>, g: Given, codes: set<string>, n: nat, u: nat) {
    exists a: nat :: a < n && a < |slots| && slots[a] == SearchesName(u) && !HasPut(slots, g, codes, a)
  }

  /** What a worker's code search has shown: its code, if it has one and was answered, was not there at the start. */
  predicate CodeIsNew(a: Attempt, codes: set<string>) {
    HasCode(a.product) ==>
      a.weather.eanSearch != NoReply && (a.weather.eanSearch == Answered ==> a.product.info.ean !in codes)
  }

  /** What a worker knows is right, as far as it goes; who is about to create searched before any creation. */
  ghost predicate SyncerOk(start: Catalogue, now: Catalogue, g: Given, slots: seq<Slot>, n: nat, u: nat, k: Syncer) {
    var a, codes := g.seen(u), CodesOf(start);
    && (k.found.Some? && Creates(a, codes) ==> HasName(now, g))
    && (k == Coded(None) ==> CodeIsNew(a, codes))
    && (k == Targeted(None) && a.weather.write != NotApplied ==>
          Creates(a, codes) && !HasName(start, g) && SearchedFirst(slots, g, codes, n, u))
  }

  ghost predicate Inv(start: Catalogue, s: State, g: Given, slots: seq<Slot>, n: nat) {
    && IsGrown(start, s.catalogue, g)
    && (HasName(start, g) ==> |s.catalogue| == |start|)
    && (!HasName(start, g) ==> (|s.catalogue| > |start| <==> HasPut(slots, g, CodesOf(start), n)))
    && forall u :: u in s.syncers ==> SyncerOk(start, s.catalogue, g, slots, n, u, s.syncers[u])
  }

  lemma SyncerStaysOk(start: Catalogue, now: Catalogue, later: Catalogue, g: Given, slots: seq<Slot>, n: nat, u: nat,
                      k: Syncer)
    requires SyncerOk(start, now, g, slots, n, u, k) && (HasName(now, g) ==> HasName(later, g))
    ensures SyncerOk(start, later, g, slots, n + 1, u, k)
  {
    if SearchedFirst(slots, g, CodesOf(start), n, u) {
      var a: nat :| a < n && a < |slots| && slots[a] == SearchesName(u) && !HasPut(slots, g, CodesOf(start), a);
      assert slots[a] == SearchesName(u);
    }
  }

  /** The syncers other than v are as they were; v is gone, or what it knows is right. */
  lemma InvWith(start: Catalogue, s: State, t: State, g: Given, slots: seq<Slot>, n: nat, v: nat)
    requires Inv(start, s, g, slots, n) && (HasName(s.catalogue, g) ==> HasName(t.catalogue, g))
    requires IsGrown(start, t.catalogue, g) && (HasName(start, g) ==> |t.catalogue| == |start|)
    requires !HasName(start, g) ==> (|t.catalogue| > |start| <==> HasPut(slots, g, CodesOf(start), n + 1))
    requires forall u :: u in t.syncers && u != v ==> u in s.syncers && t.syncers[u] == s.syncers[u]
    requires v in t.syncers ==> SyncerOk(start, t.catalogue, g, slots, n + 1, v, t.syncers[v])
    ensures Inv(start, t, g, slots, n + 1)
  {
    forall u | u in t.syncers
      ensures SyncerOk(start, t.catalogue, g, slots, n + 1, u, t.syncers[u])
    {
      if u != v {
        SyncerStaysOk(start, s.catalogue, t.catalogue, g, slots, n, u, s.syncers[u]);
      }
    }
  }

  /** A code that is found, and was not there at the start, belongs to an entry that was added. */
  lemma FoundCode(start: Catalogue, now: Catalogue, g: Given, a: Attempt)
    requires IsGrown(start, now, g) && SearchCode(now, a).Ok?
    ensures SearchCode(now, a).value.Some? && Creates(a, CodesOf(start)) ==> HasName(now, g)
    ensures SearchCode(now, a).value.None? ==> CodeIsNew(a, CodesOf(start))
  {
    EanIndexFinds(now, a.product.info.ean, 0);
    GrownHasName(start, now, g);
    if SearchCode(now, a).value.Some? {
      var i := SearchCode(now, a).value.value;
      assert i < |start| ==> start[i].ean in CodesOf(start);
    } else if a.product.info.ean in CodesOf(start) {
      var i :| 0 <= i < |start| && start[i].ean == a.product.info.ean;
      assert now[i].ean == a.product.info.ean;
    }
  }

  lemma CodeSearchKeepsInv(start: Catalogue, s: State, g: Given, slots: seq<Slot>, n: nat)
    requires n < |slots| && Inv(start, s, g, slots, n) && slots[n].SearchesCode?
    ensures Inv(start, Next(s, g, slots[n]), g, slots, n + 1)
  {
    var u := slots[n].u;
    OneMorePut(slots, g, CodesOf(start), n);
    if SearchCode(s.catalogue, g.seen(u)).Ok? {
      FoundCode(start, s.catalogue, g, g.seen(u));
    } else if u in s.syncers {
      SyncerStaysOk(start, s.catalogue, s.catalogue, g, slots, n, u, s.syncers[u]);
    }
    InvWith(start, s, Next(s, g, slots[n]), g, slots, n, u);
  }

  /** A name search that finds nothing comes before any creation. */
  lemma NameSearchOk(start: Catalogue, s: State, g: Given, slots: seq<Slot>, n: nat)
    requires IsOfOneName(g) && n < |slots| && Inv(start, s, g, slots, n) && slots[n].SearchesName?
    ensures var u, t := slots[n].u, Next(s, g, slots[n]);
            u in t.syncers ==> SyncerOk(start, t.catalogue, g, slots, n + 1, u, t.syncers[u])
  {
    var u, t := slots[n].u, Next(s, g, slots[n]);
    if u in s.syncers {
      SyncerStaysOk(start, s.catalogue, s.catalogue, g, slots, n, u, s.syncers[u]);
    }
    assert IsNamed(g, u);
    NameIsFound(s.catalogue, g, u);
    GrownHasName(start, s.catalogue, g);
    if !HasName(s.catalogue, g) {
      assert SearchedFirst(slots, g, CodesOf(start), n + 1, u);
    }
  }

  lemma NameSearchTouches(s: State, g: Given, u: nat)
    ensures var t := Next(s, g, SearchesName(u));
            && t.catalogue == s.catalogue
            && forall v :: v in t.syncers && v != u ==> v in s.syncers && t.syncers[v] == s.syncers[v]
  {
  }

  lemma NameSearchKeepsInv(start: Catalogue, s: State, g: Given, slots: seq<Slot>, n: nat)
    requires IsOfOneName(g) && n < |slots| && Inv(start, s, g, slots, n) && slots[n].SearchesName?
    ensures Inv(start, Next(s, g, slots[n]), g, slots, n + 1)
  {
    OneMorePut(slots, g, CodesOf(start), n);
    NameSearchOk(start, s, g, slots, n);
    NameSearchTouches(s, g, slots[n].u);
    InvWith(start, s, Next(s, g, slots[n]), g, slots, n, slots[n].u);
  }

  /** Who can only create has come as far as its last request before a put. */
  predicate IsReady(s: State, g: Given, slots: seq<Slot>, codes: set<string>, n: nat)
    requires n < |slots|
  {
    PutsNew(slots, g, codes, n) ==> slots[n].u in s.syncers && s.syncers[slots[n].u].Targeted?
  }

  lemma PutKeepsInv(start: Catalogue, s: State, g: Given, slots: seq<Slot>, n: nat)
    requires IsOfOneName(g) && n < |slots| && Inv(start, s, g, slots, n) && slots[n].Puts?
    requires IsReady(s, g, slots, CodesOf(start), n)
    ensures Inv(start, Next(s, g, slots[n]), g, slots, n + 1)
  {
    var u, t := slots[n].u, Next(s, g, slots[n]);
    OneMorePut(slots, g, CodesOf(start), n);
    GrownHasName(start, s.catalogue, g);
    if u in s.syncers && s.syncers[u].Targeted? {
      assert SyncerOk(start, s.catalogue, g, slots, n, u, s.syncers[u]);
      PutGrows(start, s.catalogue, g, u, s.syncers[u].found);
    } else if u in s.syncers {
      SyncerStaysOk(start, s.catalogue, s.catalogue, g, slots, n, u, s.syncers[u]);
    }
    GrownHasName(start, t.catalogue, g);
    InvWith(start, s, t, g, slots, n, u);
  }

  // ---------------------------------------------------------------- where the workers stand

  /** Whatever the searches find, the worker gets as far as its put. */
  predicate IsResponsive(a: Attempt) {
    a.weather.nameSearch == Answered && !(HasCode(a.product) && a.weather.eanSearch == NoReply)
  }

  datatype Stage = Absent | Looking | Looked | Finished

  function StageOf(slots: seq<Slot>, n: nat, u: nat): Stage
    requires n <= |slots|
  {
    if Puts(u) in slots[..n] then Finished
    else if SearchesName(u) in slots[..n] then Looked
    else if SearchesCode(u) in slots[..n] then Looking
    else Absent
  }

  predicate StandsAt(s: State, u: nat, stage: Stage) {
    match stage
    case Looking => u in s.syncers && s.syncers[u].Coded?
    case Looked => u in s.syncers && s.syncers[u].Targeted?
    case Absent => true
    case Finished => true
  }

  predicate StandsInLine(s: State, g: Given, slots: seq<Slot>, n: nat, u: nat)
    requires n <= |slots|
  {
    IsResponsive(g.seen(u)) ==> StandsAt(s, u, StageOf(slots, n, u))
  }

  ghost predicate IsUnderWay(s: State, g: Given, slots: seq<Slot>, n: nat)
    requires n <= |slots|
  {
    forall u :: StandsInLine(s, g, slots, n, u)
  }

  lemma WasSearched(slots: seq<Slot>, n: nat, u: nat)
    requires n <= |slots| && IsSchedule(slots)
    ensures Puts(u) in slots[..n] ==> SearchesName(u) in slots[..n]
    ensures SearchesName(u) in slots[..n] ==> SearchesCode(u) in slots[..n]
  {
    if SearchesName(u) in slots[..n] {
      var j: nat :| j < n && slots[j] == SearchesName(u);
      assert IsInOrder(slots, j) && slots[..j] <= slots[..n];
    }
    if Puts(u) in slots[..n] {
      var j: nat :| j < n && slots[j] == Puts(u);
      assert IsInOrder(slots, j) && slots[..j] <= slots[..n];
    }
  }

  lemma NotInFront(slots: seq<Slot>, n: nat, c: nat)
    requires IsSchedule(slots) && n <= c < |slots|
    ensures slots[c] !in slots[..n]
  {
    assert IsInOrder(slots, c) && slots[..n] <= slots[..c];
  }

  /** A slot takes its worker one stage further, and no other. */
  lemma StageNext(slots: seq<Slot>, n: nat, u: nat)
    requires IsSchedule(slots) && n < |slots|
    ensures slots[n].u != u ==> StageOf(slots, n + 1, u) == StageOf(slots, n, u)
    ensures slots[n] == SearchesCode(u) ==> StageOf(slots, n, u) == Absent && StageOf(slots, n + 1, u) == Looking
    ensures slots[n] == SearchesName(u) ==> StageOf(slots, n, u) == Looking && StageOf(slots, n + 1, u) == Looked
    ensures slots[n] == Puts(u) ==> StageOf(slots, n, u) == Looked && StageOf(slots, n + 1, u) == Finished
  {
    assert slots[..n + 1] == slots[..n] + [slots[n]];
    assert IsInOrder(slots, n);
    WasSearched(slots, n, u);
  }

  lemma OthersLeaveIt(s: State, g: Given, slot: Slot, u: nat)
    requires slot.u != u
    ensures u in Next(s, g, slot).syncers <==> u in s.syncers
    ensures u in s.syncers ==> Next(s, g, slot).syncers[u] == s.syncers[u]
  {
  }

  lemma ActsOnce(s: State, g: Given, slot: Slot)
    requires IsResponsive(g.seen(slot.u))
    ensures slot.SearchesCode? ==> StandsAt(Next(s, g, slot), slot.u, Looking)
    ensures slot.SearchesName? && StandsAt(s, slot.u, Looking) ==> StandsAt(Next(s, g, slot), slot.u, Looked)
  {
  }

  lemma SlotIsNext(s: State, g: Given, slots: seq<Slot>, n: nat)
    requires IsSchedule(slots) && n < |slots| && IsUnderWay(s, g, slots, n)
    ensures IsUnderWay(Next(s, g, slots[n]), g, slots, n + 1)
  {
    var t, m := Next(s, g, slots[n]), n + 1;
    forall u
      ensures StandsInLine(t, g, slots, m, u)
    {
      StageNext(slots, n, u);
      assert StandsInLine(s, g, slots, n, u);
      if u != slots[n].u {
        OthersLeaveIt(s, g, slots[n], u);
      } else if IsResponsive(g.seen(u)) {
        ActsOnce(s, g, slots[n]);
      }
    }
  }

  ghost predicate UnderWayAfter(c: Catalogue, g: Given, slots: seq<Slot>, n: nat)
    requires n <= |slots|
  {
    IsUnderWay(Play(c, g, slots, n), g, slots, n)
  }

  lemma UnderWayOneMore(c: Catalogue, g: Given, slots: seq<Slot>, n: nat)
    requires IsSchedule(slots) && 0 < n <= |slots| && UnderWayAfter(c, g, slots, n - 1)
    ensures UnderWayAfter(c, g, slots, n)
  {
    SlotIsNext(Play(c, g, slots, n - 1), g, slots, n - 1);
    NextState(c, g, slots, n - 1);
  }

  lemma {:induction false} UnderWay(c: Catalogue, g: Given, slots: seq<Slot>, n: nat)
    requires IsSchedule(slots) && n <= |slots|
    ensures UnderWayAfter(c, g, slots, n)
  {
    if n > 0 {
      UnderWay(c, g, slots, n - 1);
      UnderWayOneMore(c, g, slots, n);
    }
  }

  lemma PutIsReady(s: State, g: Given, slots: seq<Slot>, codes: set<string>, n: nat)
    requires IsSchedule(slots) && n < |slots| && IsUnderWay(s, g, slots, n)
    ensures IsReady(s, g, slots, codes, n)
  {
    StageNext(slots, n, slots[n].u);
    assert StandsInLine(s, g, slots, n, slots[n].u);
  }

  ghost predicate InvAfter(c: Catalogue, g: Given, slots: seq<Slot>, n: nat)
    requires n <= |slots|
  {
    Inv(c, Play(c, g, slots, n), g, slots, n)
  }

  lemma NextKeepsInv(start: Catalogue, s: State, t: State, g: Given, slots: seq<Slot>, n: nat)
    requires IsSchedule(slots) && IsOfOneName(g) && 0 < n <= |slots| && Inv(start, s, g, slots, n - 1)
    requires IsUnderWay(s, g, slots, n - 1) && t == Next(s, g, slots[n - 1])
    ensures Inv(start, t, g, slots, n)
  {
    match slots[n - 1]
    case SearchesCode(_) => CodeSearchKeepsInv(start, s, g, slots, n - 1);
    case SearchesName(_) => NameSearchKeepsInv(start, s, g, slots, n - 1);
    case Puts(_) =>
      PutIsReady(s, g, slots, CodesOf(start), n - 1);
      PutKeepsInv(start, s, g, slots, n - 1);
  }

  lemma InvOneMore(c: Catalogue, g: Given, slots: seq<Slot>, n: nat)
    requires IsSchedule(slots) && IsOfOneName(g) && 0 < n <= |slots| && InvAfter(c, g, slots, n - 1)
    ensures InvAfter(c, g, slots, n)
  {
    UnderWay(c, g, slots, n - 1);
    NextState(c, g, slots, n - 1);
    NextKeepsInv(c, Play(c, g, slots, n - 1), Play(c, g, slots, n), g, slots, n);
  }

  lemma {:induction false} PlayKeepsInv(c: Catalogue, g: Given, slots: seq<Slot>, n: nat)
    requires IsSchedule(slots) && IsOfOneName(g) && n <= |slots|
    ensures InvAfter(c, g, slots, n)
  {
    if n > 0 {
      PlayKeepsInv(c, g, slots, n - 1);
      InvOneMore(c, g, slots, n);
    }
  }

  // ---------------------------------------------------------------- without a race

  /** Who can only create, and searched before any creation, creates first if there is no race. */
  lemma CreatesFirst(slots: seq<Slot>, g: Given, codes: set<string>, n: nat)
    requires HasNoRace(slots, g) && PutsNew(slots, g, codes, n) && SearchedFirst(slots, g, codes, n, slots[n].u)
    ensures !HasPut(slots, g, codes, n)
  {
    var a: nat :| a < n && a < |slots| && slots[a] == SearchesName(slots[n].u) && !HasPut(slots, g, codes, a);
    if HasPut(slots, g, codes, n) {
      var b: nat :| b < n && PutsNew(slots, g, codes, b);
      assert a < b;
      assert Races(slots, g, codes, a, b, n);
    }
  }

  lemma CreatesOnce(start: Catalogue, s: State, g: Given, slots: seq<Slot>, n: nat)
    requires IsOfOneName(g) && HasNoRace(slots, g) && n < |slots| && Inv(start, s, g, slots, n)
    requires |s.catalogue| <= |start| + 1
    ensures |Next(s, g, slots[n]).catalogue| <= |start| + 1
  {
    var u := slots[n].u;
    if slots[n].Puts? && u in s.syncers && s.syncers[u].Targeted? {
      assert SyncerOk(start, s.catalogue, g, slots, n, u, s.syncers[u]);
      PutGrows(start, s.catalogue, g, u, s.syncers[u].found);
      if s.syncers[u] == Targeted(None) && g.seen(u).weather.write != NotApplied {
        CreatesFirst(slots, g, CodesOf(start), n);
      }
    }
  }

  lemma {:induction false} AtMostOne(c: Catalogue, g: Given, slots: seq<Slot>, n: nat)
    requires IsSchedule(slots) && IsOfOneName(g) && HasNoRace(slots, g) && n <= |slots|
    ensures |Play(c, g, slots, n).catalogue| <= |c| + 1
  {
    if n > 0 {
      AtMostOne(c, g, slots, n - 1);
      PlayKeepsInv(c, g, slots, n - 1);
      CreatesOnce(c, Play(c, g, slots, n - 1), g, slots, n - 1);
      NextState(c, g, slots, n - 1);
    }
  }

  lemma OneMoreIsUnique(start: Catalogue, now: Catalogue, g: Given)
    requires UniqueNames(start) && IsGrown(start, now, g) && |now| <= |start| + 1
    requires HasName(start, g) ==> |now| == |start|
    ensures UniqueNames(now)
  {
    forall i, j | 0 <= i < j < |now|
      ensures !(FoldedName(now[i].name) == FoldedName(now[j].name) && now[i].brand == now[j].brand)
    {
      if j < |start| {
        assert !(FoldedName(start[i].name) == FoldedName(start[j].name) && start[i].brand == start[j].brand);
      } else {
        assert !NameMatches(start[i], g.title, g.brand);
      }
    }
  }

  // ---------------------------------------------------------------- a race

  /** A catalogue that has just these codes, under names of which none is the one in question. */
  lemma {:induction false} CatalogueOf(codes: set<string>, title: string) returns (c: Catalogue)
    ensures UniqueNames(c) && CodesOf(c) == codes
    ensures forall i :: 0 <= i < |c| ==> c[i].name == title + "2" && c[i].brand == c[i].ean
    decreases codes
  {
    c := [];
    if codes != {} {
      var code :| code in codes;
      var rest := CatalogueOf(codes - {code}, title);
      c := rest + [Entry(code, title + "2", code, "", None, "", "")];
      forall i | 0 <= i < |rest|
        ensures c[i].ean in codes - {code}
      {
        assert rest[i].ean in CodesOf(rest);
      }
      assert CodesOf(c) == CodesOf(rest) + {code} by {
        assert c[|rest|].ean == code;
        assert forall i :: 0 <= i < |rest| ==> c[i] == rest[i];
      }
    }
  }

  ghost predicate FoundNothing(s: State, u: nat) {
    u in s.syncers && s.syncers[u] == Targeted(None)
  }

  /** Before any creation a name search finds nothing. */
  lemma FindsNothing(c: Catalogue, g: Given, slots: seq<Slot>, a: nat)
    requires IsSchedule(slots) && IsOfOneName(g) && a < |slots| && slots[a].SearchesName? && !HasName(c, g)
    requires Creates(g.seen(slots[a].u), CodesOf(c)) && !HasPut(slots, g, CodesOf(c), a)
    ensures FoundNothing(Play(c, g, slots, a + 1), slots[a].u)
  {
    var s, u := Play(c, g, slots, a), slots[a].u;
    UnderWay(c, g, slots, a);
    PlayKeepsInv(c, g, slots, a);
    StageNext(slots, a, u);
    assert StandsInLine(s, g, slots, a, u) && SyncerOk(c, s.catalogue, g, slots, a, u, s.syncers[u]);
    GrownHasName(c, s.catalogue, g);
    NameIsFound(s.catalogue, g, u);
    NextState(c, g, slots, a);
  }

  /** Between its name search and its put a worker makes no request. */
  lemma OthersInBetween(slots: seq<Slot>, a: nat, d: nat, n: nat)
    requires IsSchedule(slots) && a < n < d < |slots| && slots[d].Puts? && slots[a] == SearchesName(slots[d].u)
    ensures slots[n].u != slots[d].u
  {
    var u := slots[d].u;
    NotInFront(slots, n, d);
    NotInFront(slots, n, n);
    assert slots[..n][a] == slots[a];
    WasSearched(slots, n, u);
    assert slots[n] == Puts(u) ==> slots[d] in slots[..n + 1] by {
      assert slots[..n + 1][n] == slots[n];
    }
    NotInFront(slots, n + 1, d);
  }

  lemma StillNothing(c: Catalogue, g: Given, slots: seq<Slot>, n: nat, u: nat)
    requires 0 < n <= |slots| && slots[n - 1].u != u && FoundNothing(Play(c, g, slots, n - 1), u)
    ensures FoundNothing(Play(c, g, slots, n), u)
  {
    OthersLeaveIt(Play(c, g, slots, n - 1), g, slots[n - 1], u);
    NextState(c, g, slots, n - 1);
  }

  /** A worker that found nothing still believes that the product is not there when it puts it. */
  lemma {:induction false} StillFindsNothing(c: Catalogue, g: Given, slots: seq<Slot>, a: nat, d: nat, n: nat)
    requires IsSchedule(slots) && a < n <= d < |slots| && slots[d].Puts? && slots[a] == SearchesName(slots[d].u)
    requires FoundNothing(Play(c, g, slots, a + 1), slots[d].u)
    ensures FoundNothing(Play(c, g, slots, n), slots[d].u)
  {
    if n > a + 1 {
      StillFindsNothing(c, g, slots, a, d, n - 1);
      OthersInBetween(slots, a, d, n - 1);
      StillNothing(c, g, slots, n, slots[d].u);
    }
  }

  lemma TwoAreTooMany(start: Catalogue, now: Catalogue, g: Given)
    requires IsGrown(start, now, g) && |now| >= |start| + 2
    ensures !UniqueNames(now)
  {
    var i, j := |start|, |start| + 1;
    assert FoldedName(now[i].name) == FoldedName(now[j].name) && now[i].brand == now[j].brand;
  }

  /** The second creation. */
  lemma SecondCreation(c: Catalogue, g: Given, slots: seq<Slot>, a: nat, b: nat, d: nat)
    requires IsSchedule(slots) && IsOfOneName(g) && !HasName(c, g) && Races(slots, g, CodesOf(c), a, b, d)
    ensures !UniqueNames(Play(c, g, slots, d + 1).catalogue)
  {
    FindsNothing(c, g, slots, a);
    StillFindsNothing(c, g, slots, a, d, d);
    PlayKeepsInv(c, g, slots, d);
    assert HasPut(slots, g, CodesOf(c), d);
    PutGrows(c, Play(c, g, slots, d).catalogue, g, slots[d].u, None);
    NextState(c, g, slots, d);
    TwoAreTooMany(c, Play(c, g, slots, d + 1).catalogue, g);
  }

  lemma RaceDuplicates(g: Given, slots: seq<Slot>, codes: set<string>, a: nat, b: nat, d: nat) returns (c: Catalogue)
    requires IsSchedule(slots) && IsOfOneName(g) && Races(slots, g, codes, a, b, d)
    ensures UniqueNames(c) && !UniqueNames(Play(c, g, slots, d + 1).catalogue)
  {
    c := CatalogueOf(codes, g.title);
    RivalNameDiffers(g.title);
    SecondCreation(c, g, slots, a, b, d);
  }

  /**
   Exactly which schedules of syncs of products of one name are harmless, whatever their codes and the
   weather, as long as no single sync is unsafe for names: names stay unique in every catalogue at every
   point, if and only if, whichever codes the catalogue has, among the workers that can then only create
   none searches by name before the first of them puts and puts after another.
   */
  lemma UniqueIffNoRace(g: Given, slots: seq<Slot>)
    requires IsSchedule(slots) && IsOfOneName(g)
    ensures AlwaysUnique(slots, g) <==> HasNoRace(slots, g)
  {
    if HasNoRace(slots, g) {
      forall c: Catalogue, n: nat | UniqueNames(c) && n <= |slots|
        ensures UniqueNames(Play(c, g, slots, n).catalogue)
      {
        AtMostOne(c, g, slots, n);
        PlayKeepsInv(c, g, slots, n);
        OneMoreIsUnique(c, Play(c, g, slots, n).catalogue, g);
      }
    } else {
      var codes: set<string>, a: nat, b: nat, d: nat :| Races(slots, g, codes, a, b, d);
      var c := RaceDuplicates(g, slots, codes, a, b, d);
    }
  }

  // ---------------------------------------------------------------- one such run

  /** Two workers search before either puts. */
  function BothSearchFirst(): seq<Slot> {
    [SearchesCode(0), SearchesCode(1), SearchesName(0), SearchesName(1), Puts(0), Puts(1)]
  }

  lemma BothRace(p: Product)
    ensures IsSchedule(BothSearchFirst())
    ensures Races(BothSearchFirst(), Given(_ => Attempt(p, FAIR), p.info.title, p.info.brand), {}, 3, 4, 5)
  {
    var slots := BothSearchFirst();
    assert slots[..2][0] == slots[0] && slots[..3][1] == slots[1];
    assert slots[..4][2] == slots[2] && slots[..5][3] == slots[3];
  }

  /** Two workers that sync one ready product in fair weather create it twice in an empty catalogue. */
  lemma BothCreate(p: Product)
    requires NeedsSync(p)
    ensures var g := Given(_ => Attempt(p, FAIR), p.info.title, p.info.brand);
            UniqueNames([]) && !UniqueNames(Play([], g, BothSearchFirst(), 6).catalogue)
  {
    var g := Given(_ => Attempt(p, FAIR), p.info.title, p.info.brand);
    BothRace(p);
    assert CodesOf([]) == {};
    SecondCreation([], g, BothSearchFirst(), 3, 4, 5);
  }
}
