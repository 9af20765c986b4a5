/**
 Enrichment visits and rejections at once. A visit reads the rejected list, asks the sources and saves
 later; a rejection reads the image in use and rejects it later. Any of them may act in between.
 */
module EnrichmentRaces {
  import opened Prelude
  import opened Text
  import opened Enrichment
  import opened EnrichmentRuns

  /** What a visit holds after its look at the rejected list, and after its save until it updates the card. */
  datatype Visitor = Looking(item: Item, found: Found) | Pushing(item: Item, found: Found, cdn: Cdn)

  /** What a rejection holds after its read, and after it has rejected the URL until it clears the card. */
  datatype Rejector = Rejecting(id: Id, url: string) | Clearing(id: Id)

  datatype State = State(world: World, visitors: map<nat, Visitor>, rejectors: map<nat, Rejector>)

  /** GiveUp and Abort end an operation at a step that fails. */
  datatype Event =
    | Look(u: nat, item: Item, sources: seq<SourceName>, ask: nat -> Query -> Answer)
    | Save(u: nat, enhanced: nat, cdn: Cdn)
    | Push(u: nat)
    | GiveUp(u: nat)
    | ReadUrl(v: nat, id: Id)
    | RejectUrl(v: nat)
    | Clear(v: nat)
    | Abort(v: nat)

  predicate Enabled(s: State, e: Event) {
    match e
    case Look(u, item, sources, ask) =>
      u !in s.visitors && FirstAcceptable(item, sources, ask, RejectedOf(s.world.rows, item.id), 0).Some?
    case Save(u, _, _) => u in s.visitors && s.visitors[u].Looking?
    case Push(u) => u in s.visitors && s.visitors[u].Pushing?
    case GiveUp(u) => u in s.visitors
    case ReadUrl(v, id) => v !in s.rejectors && id != ""
    case RejectUrl(v) => v in s.rejectors && s.rejectors[v].Rejecting?
    case Clear(v) => v in s.rejectors && s.rejectors[v].Clearing?
    case Abort(v) => v in s.rejectors
  }

  function Next(s: State, e: Event): State
    requires Enabled(s, e)
  {
    match e
    case Look(u, item, sources, ask) =>
      var found := FirstAcceptable(item, sources, ask, RejectedOf(s.world.rows, item.id), 0).value;
      s.(visitors := s.visitors[u := Looking(item, found)])
    case Save(u, enhanced, cdn) =>
      var k := s.visitors[u];
      State(World(SavedRows(s.world.rows, k, enhanced, cdn), s.world.cards),
            s.visitors[u := Pushing(k.item, k.found, cdn)], s.rejectors)
    case Push(u) => State(World(s.world.rows, PushedCards(s.world.cards, s.visitors[u])), s.visitors - {u}, s.rejectors)
    case GiveUp(u) => s.(visitors := s.visitors - {u})
    case ReadUrl(v, id) => s.(rejectors := s.rejectors[v := Rejecting(id, RawUrlOf(s.world.rows, id))])
    case RejectUrl(v) =>
      var r := s.rejectors[v];
      State(World(RejectRow(s.world.rows, r.id, r.url), s.world.cards), s.visitors, s.rejectors[v := Clearing(r.id)])
    case Clear(v) =>
      State(World(s.world.rows, ClearedCards(s.world.cards, s.rejectors[v].id)), s.visitors, s.rejectors - {v})
    case Abort(v) => s.(rejectors := s.rejectors - {v})
  }

  /** The save keeps the rejected list of the row as it is by now. */
  function SavedRows(rows: map<Id, Resolution>, k: Visitor, enhanced: nat, cdn: Cdn): map<Id, Resolution> {
    rows[k.item.id := NewRow(k.item, k.found, enhanced, cdn, RejectedOf(rows, k.item.id))]
  }

  function PushedCards(cards: map<Id, Card>, k: Visitor): map<Id, Card>
    requires k.Pushing?
  {
    cards[k.item.id := UpdatedCard(CardOf(cards, k.item.id), k.cdn.url, k.found)]
  }

  function ClearedCards(cards: map<Id, Card>, id: Id): map<Id, Card> {
    cards[id := CardOf(cards, id).(image := "")]
  }

  /** An event that is not enabled does not happen. */
  function Play(w: World, events: seq<Event>): State {
    if events == [] then State(w, map[], map[])
    else
      var s := Play(w, events[..|events| - 1]);
      if Enabled(s, events[|events| - 1]) then Next(s, events[|events| - 1]) else s
  }

  // ---------------------------------------------------------------- what happens to one product

  predicate Saves(s: State, e: Event, id: Id) {
    e.Save? && Enabled(s, e) && s.visitors[e.u].item.id == id
  }

  predicate Rejects(s: State, e: Event, id: Id, url: string) {
    e.RejectUrl? && Enabled(s, e) && s.rejectors[e.v] == Rejecting(id, url)
  }

  predicate Writes(s: State, e: Event, id: Id) {
    Saves(s, e, id) || (e.RejectUrl? && Enabled(s, e) && s.rejectors[e.v].id == id)
  }

  predicate Acts(s: State, e: Event, u: nat) {
    (e.Look? || e.Save? || e.Push? || e.GiveUp?) && e.u == u && Enabled(s, e)
  }

  /** The image in use is a rejected one. */
  predicate UsesRejected(rows: map<Id, Resolution>, id: Id) {
    id in rows && rows[id].rawUrl != "" && rows[id].rawUrl in rows[id].rejected
  }

  /** An event that does not write the product's row leaves it as it is. */
  lemma OthersLeaveRow(s: State, e: Event, id: Id)
    requires Enabled(s, e) && !Writes(s, e, id)
    ensures id in Next(s, e).world.rows <==> id in s.world.rows
    ensures id in s.world.rows ==> Next(s, e).world.rows[id] == s.world.rows[id]
  {
  }

  /** One event adds a URL to the product's rejected list exactly if it rejects it. */
  lemma ListGrows(s: State, e: Event, id: Id, url: string)
    requires Enabled(s, e)
    ensures url in RejectedOf(Next(s, e).world.rows, id)
       <==> url in RejectedOf(s.world.rows, id) || Rejects(s, e, id, url)
  {
    if !Writes(s, e, id) {
      OthersLeaveRow(s, e, id);
    }
  }

  /** What a look picks is not in the list that it read. */
  lemma LookPicksUnrejected(s: State, e: Event)
    requires e.Look? && Enabled(s, e)
    ensures var k := Next(s, e).visitors[e.u];
            k.found.image != "" && k.found.image !in RejectedOf(s.world.rows, k.item.id)
  {
    CascadeGuards(e.item, e.sources, e.ask, RejectedOf(s.world.rows, e.item.id));
  }

  lemma OthersLeaveVisitor(s: State, e: Event, u: nat)
    requires Enabled(s, e) && !Acts(s, e, u) && u in Next(s, e).visitors
    ensures u in s.visitors && Next(s, e).visitors[u] == s.visitors[u]
  {
  }

  // ---------------------------------------------------------------- positions in a run

  ghost predicate ActsAt(w: World, events: seq<Event>, u: nat, d: nat) {
    d < |events| && Acts(Play(w, events[..d]), events[d], u)
  }

  ghost predicate RejectsAt(w: World, events: seq<Event>, id: Id, url: string, d: nat) {
    d < |events| && Rejects(Play(w, events[..d]), events[d], id, url)
  }

  ghost predicate WritesAt(w: World, events: seq<Event>, id: Id, d: nat) {
    d < |events| && Writes(Play(w, events[..d]), events[d], id)
  }

  /** The visit of u that stands before event n looked at the list at event a. */
  ghost predicate LookedAt(w: World, events: seq<Event>, u: nat, a: nat, n: nat) {
    && a < n <= |events| && events[a].Look? && ActsAt(w, events, u, a)
    && forall d :: a < d < n ==> !ActsAt(w, events, u, d)
  }

  /** The URL was rejected for the product after event a and before event n. */
  ghost predicate RejectedBetween(w: World, events: seq<Event>, id: Id, url: string, a: nat, n: nat) {
    exists b :: a < b < n && RejectsAt(w, events, id, url, b)
  }

  /**
   Event c saves an image for the product that was rejected after the visit had looked at the list,
   at event a.
   */
  ghost predicate SavesRejectedAt(w: World, events: seq<Event>, id: Id, a: nat, c: nat) {
    && c < |events| && events[c].Save? && LookedAt(w, events, events[c].u, a, c)
    && var s := Play(w, events[..c]);
    && Saves(s, events[c], id)
    && RejectedBetween(w, events, id, s.visitors[events[c].u].found.image, a, c)
  }

  /** Event c saves an image that was rejected since its look, and no event before n writes the row after it. */
  ghost predicate IsLastOvertaken(w: World, events: seq<Event>, id: Id, a: nat, c: nat, n: nat) {
    c < n && SavesRejectedAt(w, events, id, a, c) && forall d :: c < d < n ==> !WritesAt(w, events, id, d)
  }

  /** The last write of the product's row saves an image that was rejected after the visit's look. */
  ghost predicate IsOvertaken(w: World, events: seq<Event>, id: Id) {
    exists a: nat, c: nat :: IsLastOvertaken(w, events, id, a, c, |events|)
  }

  lemma FrontAgrees(w: World, events: seq<Event>, n: nat, d: nat)
    requires d < n <= |events|
    ensures forall u :: ActsAt(w, events[..n], u, d) <==> ActsAt(w, events, u, d)
    ensures forall id, url :: RejectsAt(w, events[..n], id, url, d) <==> RejectsAt(w, events, id, url, d)
    ensures forall id :: WritesAt(w, events[..n], id, d) <==> WritesAt(w, events, id, d)
  {
    assert events[..n][..d] == events[..d];
  }

  lemma FrontLooks(w: World, events: seq<Event>, n: nat, u: nat, a: nat, m: nat)
    requires m <= n <= |events|
    ensures LookedAt(w, events[..n], u, a, m) <==> LookedAt(w, events, u, a, m)
  {
    forall d | 0 <= d < m
      ensures ActsAt(w, events[..n], u, d) <==> ActsAt(w, events, u, d)
    {
      FrontAgrees(w, events, n, d);
    }
  }

  lemma FrontRejects(w: World, events: seq<Event>, n: nat, id: Id, url: string, a: nat, m: nat)
    requires m <= n <= |events|
    ensures RejectedBetween(w, events[..n], id, url, a, m) <==> RejectedBetween(w, events, id, url, a, m)
  {
    forall d | 0 <= d < m
      ensures RejectsAt(w, events[..n], id, url, d) <==> RejectsAt(w, events, id, url, d)
    {
      FrontAgrees(w, events, n, d);
    }
  }

  lemma RejectedLater(w: World, events: seq<Event>, id: Id, url: string, a: nat, n: nat)
    requires a < n < |events|
    ensures RejectedBetween(w, events, id, url, a, n + 1)
       <==> RejectedBetween(w, events, id, url, a, n) || RejectsAt(w, events, id, url, n)
  {
  }

  /**
   What a visit holds it picked at its look, and it is in the rejected list by now exactly if it was
   rejected since.
   */
  lemma {:induction false} HeldSince(w: World, events: seq<Event>, u: nat) returns (a: nat)
    requires u in Play(w, events).visitors && Play(w, events).visitors[u].Looking?
    ensures LookedAt(w, events, u, a, |events|)
    ensures var k := Play(w, events).visitors[u];
            && k.found.image != ""
            && (k.found.image in RejectedOf(Play(w, events).world.rows, k.item.id)
                <==> RejectedBetween(w, events, k.item.id, k.found.image, a, |events|))
  {
    var n := |events| - 1;
    var s, e := Play(w, events[..n]), events[n];
    var k := Play(w, events).visitors[u];
    if Acts(s, e, u) {
      a := n;
      LookPicksUnrejected(s, e);
    } else {
      if Enabled(s, e) {
        OthersLeaveVisitor(s, e, u);
        ListGrows(s, e, k.item.id, k.found.image);
      }
      a := HeldSince(w, events[..n], u);
      FrontLooks(w, events, n, u, a, n);
      FrontRejects(w, events, n, k.item.id, k.found.image, a, n);
      RejectedLater(w, events, k.item.id, k.found.image, a, n);
    }
  }

  lemma OneLook(w: World, events: seq<Event>, u: nat, a: nat, b: nat, n: nat)
    requires LookedAt(w, events, u, a, n) && LookedAt(w, events, u, b, n)
    ensures a == b
  {
  }

  /** At a save the image in use is a rejected one exactly if it was rejected since the visit's look. */
  lemma SavedIsRejected(w: World, events: seq<Event>, id: Id) returns (a: nat)
    requires events != [] && Saves(Play(w, events[..|events| - 1]), events[|events| - 1], id)
    ensures var n, u := |events| - 1, events[|events| - 1].u;
            && LookedAt(w, events, u, a, n)
            && (UsesRejected(Play(w, events).world.rows, id) <==>
                RejectedBetween(w, events, id, Play(w, events[..n]).visitors[u].found.image, a, n))
  {
    var n := |events| - 1;
    var s, u := Play(w, events[..n]), events[n].u;
    a := HeldSince(w, events[..n], u);
    FrontLooks(w, events, n, u, a, n);
    FrontRejects(w, events, n, id, s.visitors[u].found.image, a, n);
  }

  /** If the last event writes the row, the save that was overtaken is that event. */
  lemma OvertakenAtEnd(w: World, events: seq<Event>, id: Id) returns (a: nat)
    requires events != [] && WritesAt(w, events, id, |events| - 1) && IsOvertaken(w, events, id)
    ensures SavesRejectedAt(w, events, id, a, |events| - 1)
  {
    var b: nat, c: nat :| IsLastOvertaken(w, events, id, b, c, |events|);
    a := b;
  }

  /** The visit of u, which looked at a, saves an image at c that was rejected in between. */
  lemma SaveIsOvertaken(w: World, events: seq<Event>, id: Id, a: nat, c: nat)
    requires c + 1 == |events| && Saves(Play(w, events[..c]), events[c], id)
    requires LookedAt(w, events, events[c].u, a, c)
    ensures RejectedBetween(w, events, id, Play(w, events[..c]).visitors[events[c].u].found.image, a, c)
       <==> SavesRejectedAt(w, events, id, a, c)
    ensures SavesRejectedAt(w, events, id, a, c) ==> IsOvertaken(w, events, id)
  {
    assert SavesRejectedAt(w, events, id, a, c) ==> IsLastOvertaken(w, events, id, a, c, c + 1);
  }

  lemma LookIsTheSame(w: World, events: seq<Event>, id: Id, a: nat)
    requires events != [] && WritesAt(w, events, id, |events| - 1) && IsOvertaken(w, events, id)
    requires events[|events| - 1].Save? && LookedAt(w, events, events[|events| - 1].u, a, |events| - 1)
    ensures SavesRejectedAt(w, events, id, a, |events| - 1)
  {
    var b := OvertakenAtEnd(w, events, id);
    OneLook(w, events, events[|events| - 1].u, a, b, |events| - 1);
  }

  /** So it is a rejected one exactly if the save was overtaken. */
  lemma AtSave(w: World, events: seq<Event>, id: Id)
    requires events != [] && Saves(Play(w, events[..|events| - 1]), events[|events| - 1], id)
    ensures UsesRejected(Play(w, events).world.rows, id) <==> IsOvertaken(w, events, id)
  {
    var a := SavedIsRejected(w, events, id);
    SaveIsOvertaken(w, events, id, a, |events| - 1);
    if IsOvertaken(w, events, id) {
      LookIsTheSame(w, events, id, a);
    }
  }

  lemma OvertakenBySave(w: World, events: seq<Event>, id: Id)
    requires events != [] && WritesAt(w, events, id, |events| - 1)
    ensures IsOvertaken(w, events, id) ==> events[|events| - 1].Save?
  {
    if IsOvertaken(w, events, id) {
      var a := OvertakenAtEnd(w, events, id);
    }
  }

  lemma RejectionClearsRow(s: State, e: Event, id: Id)
    requires e.RejectUrl? && Writes(s, e, id)
    ensures !UsesRejected(Next(s, e).world.rows, id)
  {
  }

  /** At a rejection no image is in use. */
  lemma AtRejection(w: World, events: seq<Event>, id: Id)
    requires events != [] && Writes(Play(w, events[..|events| - 1]), events[|events| - 1], id)
    requires events[|events| - 1].RejectUrl?
    ensures !UsesRejected(Play(w, events).world.rows, id) && !IsOvertaken(w, events, id)
  {
    var n := |events| - 1;
    RejectionClearsRow(Play(w, events[..n]), events[n], id);
    assert WritesAt(w, events, id, n);
    OvertakenBySave(w, events, id);
  }

  lemma FrontSaves(w: World, events: seq<Event>, n: nat, id: Id, a: nat, c: nat)
    requires c < n <= |events|
    ensures SavesRejectedAt(w, events[..n], id, a, c) <==> SavesRejectedAt(w, events, id, a, c)
  {
    assert events[..n][..c] == events[..c];
    if events[c].Save? {
      FrontLooks(w, events, n, events[c].u, a, c);
      if Saves(Play(w, events[..c]), events[c], id) {
        FrontRejects(w, events, n, id, Play(w, events[..c]).visitors[events[c].u].found.image, a, c);
      }
    }
  }

  lemma FrontLastOvertaken(w: World, events: seq<Event>, n: nat, id: Id, a: nat, c: nat)
    requires n <= |events|
    ensures IsLastOvertaken(w, events[..n], id, a, c, n) <==> IsLastOvertaken(w, events, id, a, c, n)
  {
    if c < n {
      FrontSaves(w, events, n, id, a, c);
    }
    forall d | 0 <= d < n
      ensures WritesAt(w, events[..n], id, d) <==> WritesAt(w, events, id, d)
    {
      FrontAgrees(w, events, n, d);
    }
  }

  lemma LastOvertakenStays(w: World, events: seq<Event>, id: Id, a: nat, c: nat, n: nat)
    requires n < |events| && !WritesAt(w, events, id, n)
    ensures IsLastOvertaken(w, events, id, a, c, n + 1) <==> IsLastOvertaken(w, events, id, a, c, n)
  {
    if c == n {
      assert SavesRejectedAt(w, events, id, a, n) ==> WritesAt(w, events, id, n);
    }
  }

  /** An event that does not write the row changes neither side. */
  lemma AtOther(w: World, events: seq<Event>, id: Id)
    requires events != [] && !WritesAt(w, events, id, |events| - 1)
    ensures IsOvertaken(w, events, id) <==> IsOvertaken(w, events[..|events| - 1], id)
  {
    var n := |events| - 1;
    if IsOvertaken(w, events, id) {
      var a: nat, c: nat :| IsLastOvertaken(w, events, id, a, c, n + 1);
      LastOvertakenStays(w, events, id, a, c, n);
      FrontLastOvertaken(w, events, n, id, a, c);
    }
    if IsOvertaken(w, events[..n], id) {
      var a: nat, c: nat :| IsLastOvertaken(w, events[..n], id, a, c, n);
      FrontLastOvertaken(w, events, n, id, a, c);
      LastOvertakenStays(w, events, id, a, c, n);
    }
  }

  /**
   Exactly when a rejected image is in use again, in any run of any visits and rejections at once: when
   the last write of the product's row saved an image that was rejected between the visit's look at the
   rejected list and its save.
   */
  lemma {:induction false} RejectedInUseIff(w: World, events: seq<Event>, id: Id)
    requires RowsOk(w.rows)
    ensures UsesRejected(Play(w, events).world.rows, id) <==> IsOvertaken(w, events, id)
  {
    if events != [] {
      var n := |events| - 1;
      var s, e := Play(w, events[..n]), events[n];
      if Saves(s, e, id) {
        AtSave(w, events, id);
      } else if Writes(s, e, id) {
        AtRejection(w, events, id);
      } else {
        RejectedInUseIff(w, events[..n], id);
        AtOther(w, events, id);
        if Enabled(s, e) {
          OthersLeaveRow(s, e, id);
        }
      }
    }
  }

  /** The three requests of a visit with nothing in between are a visit. */
  lemma LookSavePushAreVisit(w: World, item: Item, sources: seq<SourceName>, c: Conditions)
    requires c.rejectedAreRead && c.enhanced.Some? && c.uploaded.Some? && c.saved && c.cardIsUpdated
    ensures var events := [Look(0, item, sources, c.ask), Save(0, c.enhanced.value, c.uploaded.value), Push(0)];
            Play(w, events).world == Visit(w, item, sources, true, c).world
  {
    var events := [Look(0, item, sources, c.ask), Save(0, c.enhanced.value, c.uploaded.value), Push(0)];
    assert events[..0] == [] && events[..3] == events;
    PlayOneMore(w, events, 0);
    PlayOneMore(w, events, 1);
    PlayOneMore(w, events, 2);
  }

  /** The three requests of a rejection with nothing in between are a rejection. */
  lemma ReadRejectClearAreReject(w: World, id: Id)
    requires id != ""
    ensures Play(w, [ReadUrl(0, id), RejectUrl(0), Clear(0)]).world
         == AfterReject(w, id, RejectConditions(true, true, true))
  {
    var events := [ReadUrl(0, id), RejectUrl(0), Clear(0)];
    assert events[..0] == [] && events[..3] == events;
    PlayOneMore(w, events, 0);
    PlayOneMore(w, events, 1);
    PlayOneMore(w, events, 2);
  }

  lemma PlayOneMore(w: World, events: seq<Event>, n: nat)
    requires n < |events|
    ensures var s := Play(w, events[..n]);
            Play(w, events[..n + 1]) == if Enabled(s, events[n]) then Next(s, events[n]) else s
  {
    assert events[..n + 1][..n] == events[..n];
  }

  // ---------------------------------------------------------------- the catalogue's cards

  /** The event writes the product's card: a visit its image, or a rejection none. */
  predicate WritesCard(s: State, e: Event, id: Id) {
    || (e.Push? && Enabled(s, e) && s.visitors[e.u].item.id == id)
    || (e.Clear? && Enabled(s, e) && s.rejectors[e.v].id == id)
  }

  ghost predicate WritesCardAt(w: World, events: seq<Event>, id: Id, d: nat) {
    d < |events| && WritesCard(Play(w, events[..d]), events[d], id)
  }

  /** The image that a write of the row is about, and the one that a write of the card shows. */
  function RowImage(e: Event): string {
    if e.Save? then e.cdn.url else ""
  }

  function CardImage(s: State, e: Event): string {
    if e.Push? && Enabled(s, e) then s.visitors[e.u].cdn.url else ""
  }

  ghost predicate IsLastWrite(w: World, events: seq<Event>, id: Id, c: nat) {
    WritesAt(w, events, id, c) && forall d :: c < d < |events| ==> !WritesAt(w, events, id, d)
  }

  ghost predicate IsLastCardWrite(w: World, events: seq<Event>, id: Id, e: nat) {
    WritesCardAt(w, events, id, e) && forall d :: e < d < |events| ==> !WritesCardAt(w, events, id, d)
  }

  /** What the row says the card should show. */
  function ImageInUse(rows: map<Id, Resolution>, id: Id): string {
    if id in rows && rows[id].rawUrl != "" then rows[id].cdn.url else ""
  }

  lemma FrontWrites(w: World, events: seq<Event>, n: nat, id: Id, d: nat)
    requires d < n <= |events|
    ensures WritesAt(w, events[..n], id, d) <==> WritesAt(w, events, id, d)
    ensures WritesCardAt(w, events[..n], id, d) <==> WritesCardAt(w, events, id, d)
  {
    assert events[..n][..d] == events[..d];
  }

  lemma FrontLastWrites(w: World, events: seq<Event>, id: Id, c: nat)
    requires events != [] && c < |events| - 1
    ensures IsLastWrite(w, events, id, c) ==> IsLastWrite(w, events[..|events| - 1], id, c)
    ensures IsLastCardWrite(w, events, id, c) ==> IsLastCardWrite(w, events[..|events| - 1], id, c)
  {
    var n := |events| - 1;
    forall d | 0 <= d < n
      ensures WritesAt(w, events[..n], id, d) <==> WritesAt(w, events, id, d)
      ensures WritesCardAt(w, events[..n], id, d) <==> WritesCardAt(w, events, id, d)
    {
      FrontWrites(w, events, n, id, d);
    }
  }

  /** A row that is written says what the event is about; a saved image is never empty. */
  lemma WrittenRow(w: World, events: seq<Event>, id: Id)
    requires events != [] && WritesAt(w, events, id, |events| - 1)
    ensures id in Play(w, events).world.rows
    ensures ImageInUse(Play(w, events).world.rows, id) == RowImage(events[|events| - 1])
  {
    var n := |events| - 1;
    if events[n].Save? {
      var a := HeldSince(w, events[..n], events[n].u);
    }
  }

  /** The row says what its last write was about. */
  lemma {:induction false} RowIsLastWritten(w: World, events: seq<Event>, id: Id, c: nat)
    requires IsLastWrite(w, events, id, c)
    ensures id in Play(w, events).world.rows
    ensures ImageInUse(Play(w, events).world.rows, id) == RowImage(events[c])
  {
    var n := |events| - 1;
    if c == n {
      WrittenRow(w, events, id);
    } else {
      FrontLastWrites(w, events, id, c);
      RowIsLastWritten(w, events[..n], id, c);
      assert !WritesAt(w, events, id, n);
      if Enabled(Play(w, events[..n]), events[n]) {
        OthersLeaveRow(Play(w, events[..n]), events[n], id);
      }
    }
  }

  lemma OthersLeaveCard(s: State, e: Event, id: Id)
    requires Enabled(s, e) && !WritesCard(s, e, id)
    ensures CardOf(Next(s, e).world.cards, id) == CardOf(s.world.cards, id)
  {
  }

  /** The card shows what its last write shows. */
  lemma {:induction false} CardIsLastWritten(w: World, events: seq<Event>, id: Id, e: nat)
    requires IsLastCardWrite(w, events, id, e)
    ensures CardOf(Play(w, events).world.cards, id).image == CardImage(Play(w, events[..e]), events[e])
  {
    var n := |events| - 1;
    if e < n {
      FrontLastWrites(w, events, id, e);
      CardIsLastWritten(w, events[..n], id, e);
      assert events[..n][..e] == events[..e];
      assert !WritesCardAt(w, events, id, n);
      if Enabled(Play(w, events[..n]), events[n]) {
        OthersLeaveCard(Play(w, events[..n]), events[n], id);
      }
    }
  }

  /**
   After any run of visits and rejections at once, a card agrees with its row exactly if the last write
   of the card shows the image that the last write of the row is about.
   */
  lemma CardAgreesIff(w: World, events: seq<Event>, id: Id, c: nat, e: nat)
    requires IsLastWrite(w, events, id, c) && IsLastCardWrite(w, events, id, e)
    ensures CardAgrees(Play(w, events).world, id)
       <==> CardImage(Play(w, events[..e]), events[e]) == RowImage(events[c])
  {
    RowIsLastWritten(w, events, id, c);
    CardIsLastWritten(w, events, id, e);
  }

  /** Event e writes the card of the product whose row the same operation wrote at c. */
  ghost predicate Completes(w: World, events: seq<Event>, c: nat, e: nat) {
    && c < e < |events| && Enabled(Play(w, events[..c]), events[c]) && Enabled(Play(w, events[..e]), events[e])
    && if events[c].Save?
       then events[e] == Push(events[c].u) && forall d :: c < d < e ==> !ActsAt(w, events, events[c].u, d)
       else events[c].RejectUrl? && events[e] == Clear(events[c].v)
  }

  /** Between its save and its card a visit holds what it saved. */
  lemma {:induction false} StillPushing(w: World, events: seq<Event>, c: nat, n: nat)
    requires c < n <= |events| && events[c].Save? && Enabled(Play(w, events[..c]), events[c])
    requires forall d :: c < d < n ==> !ActsAt(w, events, events[c].u, d)
    ensures var s, u := Play(w, events[..n]), events[c].u;
            u in s.visitors && s.visitors[u].Pushing? && s.visitors[u].cdn == events[c].cdn
  {
    PlayOneMore(w, events, n - 1);
    if n > c + 1 {
      StillPushing(w, events, c, n - 1);
      assert !ActsAt(w, events, events[c].u, n - 1);
    }
  }

  /** If the operation that writes the row last also writes the card last, the card agrees with the row. */
  lemma LastOperationAgrees(w: World, events: seq<Event>, id: Id, c: nat, e: nat)
    requires IsLastWrite(w, events, id, c) && IsLastCardWrite(w, events, id, e) && Completes(w, events, c, e)
    ensures CardAgrees(Play(w, events).world, id)
  {
    CardAgreesIff(w, events, id, c, e);
    if events[c].Save? {
      StillPushing(w, events, c, e);
    }
  }

  // ---------------------------------------------------------------- two runs

  const ITEM := Item("p", "e", "n", "b", "", "")

  const FOUND := Found("", "", "", "", "", "i", ML)

  const IN_USE := Resolution("e", "", ML, "i", Cdn("c", "c"), Passthrough, 0, [])

  const SHOWN := World(map["p" := IN_USE], map["p" := Card("c", "", "", "", "")])

  function FindsIt(): nat -> Query -> Answer {
    _ => _ => Data(FOUND)
  }

  /** A forced visit looks, the image in use is rejected, and the visit saves it again. */
  function Comeback(): seq<Event> {
    [Look(0, ITEM, [ML], FindsIt()), ReadUrl(1, "p"), RejectUrl(1), Save(0, 0, Cdn("c", "c"))]
  }

  lemma LookFindsImage()
    ensures FirstAcceptable(ITEM, [ML], FindsIt(), [], 0) == Some(FOUND)
  {
    assert TrimSpace("e") == "e";
  }

  /** The visit holds the image, and the rejection has read it. */
  lemma BothHoldImage()
    ensures Play(SHOWN, Comeback()[..2]) == State(SHOWN, map[0 := Looking(ITEM, FOUND)], map[1 := Rejecting("p", "i")])
  {
    var events := Comeback();
    assert events[..0] == [];
    LookFindsImage();
    PlayOneMore(SHOWN, events, 0);
    PlayOneMore(SHOWN, events, 1);
  }

  lemma RejectedImageReturns()
    ensures RowsOk(SHOWN.rows) && UsesRejected(Play(SHOWN, Comeback()).world.rows, "p")
  {
    var events := Comeback();
    assert events[..4] == events;
    BothHoldImage();
    PlayOneMore(SHOWN, events, 2);
    assert RejectedOf(Play(SHOWN, events[..3]).world.rows, "p") == [] + ["i"];
    PlayOneMore(SHOWN, events, 3);
  }

  /** A forced visit looks and saves, its image is rejected and its card cleared, and then it updates the card. */
  function LateCard(): seq<Event> {
    [Look(0, ITEM, [ML], FindsIt()), Save(0, 0, Cdn("c", "c")), ReadUrl(1, "p"), RejectUrl(1), Clear(1), Push(0)]
  }

  lemma SavedAgain()
    ensures Play(SHOWN, LateCard()[..2]) == State(SHOWN, map[0 := Pushing(ITEM, FOUND, Cdn("c", "c"))], map[])
  {
    var events := LateCard();
    assert events[..0] == [];
    LookFindsImage();
    PlayOneMore(SHOWN, events, 0);
    PlayOneMore(SHOWN, events, 1);
    assert SavedRows(SHOWN.rows, Looking(ITEM, FOUND), 0, Cdn("c", "c")) == SHOWN.rows;
  }

  const REJECTED := IN_USE.(rawUrl := "", rejected := ["i"])

  lemma RejectsInUse()
    ensures RejectRow(SHOWN.rows, "p", "i") == map["p" := REJECTED]
  {
    assert IN_USE.rejected + ["i"] == ["i"];
  }

  lemma RejectedBeforePush()
    ensures Play(SHOWN, LateCard()[..4])
         == State(World(map["p" := REJECTED], SHOWN.cards), map[0 := Pushing(ITEM, FOUND, Cdn("c", "c"))],
                  map[1 := Clearing("p")])
  {
    var events := LateCard();
    SavedAgain();
    PlayOneMore(SHOWN, events, 2);
    PlayOneMore(SHOWN, events, 3);
    RejectsInUse();
  }

  /** The card shows the rejected image, and the row has none. */
  lemma LateCardShowsRejected()
    ensures var t := Play(SHOWN, LateCard()).world;
            !IsResolved(t.rows, "p") && CardOf(t.cards, "p").image == "c" && !CardAgrees(t, "p")
  {
    var events := LateCard();
    assert events[..6] == events;
    RejectedBeforePush();
    PlayOneMore(SHOWN, events, 4);
    PlayOneMore(SHOWN, events, 5);
  }
}
