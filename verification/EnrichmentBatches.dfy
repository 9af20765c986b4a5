/** A run over a queue of items, one visit after another, and its accounts. */
module EnrichmentBatches {
  import opened Prelude
  import opened Enrichment

  datatype Error = Error(id: Id, failure: Failure)

  datatype Tally = Tally(processed: nat, skipped: nat, failed: nat, totalCost: nat, errors: seq<Error>)

  const NO_TALLY := Tally(0, 0, 0, 0, [])

  function Counted(t: Tally, id: Id, v: Verdict): Tally {
    match v
    case Skipped => t.(skipped := t.skipped + 1)
    case Processed(cost) => t.(processed := t.processed + 1, totalCost := t.totalCost + cost)
    case Failed(failure) => t.(failed := t.failed + 1, errors := t.errors + [Error(id, failure)])
  }

  datatype Progress = Progress(world: World, tally: Tally)

  /** The setting of a run: its sources, whether it is forced, and what each visit meets. */
  datatype Setting = Setting(sources: seq<SourceName>, force: bool, conditions: nat -> Conditions)

  /** Visits all the items, in order. */
  function VisitAll(w: World, items: seq<Item>, g: Setting): Progress {
    if items == [] then Progress(w, NO_TALLY)
    else
      var n := |items| - 1;
      var p := VisitAll(w, items[..n], g);
      var e := Visit(p.world, items[n], g.sources, g.force, g.conditions(n));
      Progress(e.world, Counted(p.tally, items[n].id, e.verdict))
  }

  /** What each visit of the run came to. */
  function Verdicts(w: World, items: seq<Item>, g: Setting): (r: seq<Verdict>)
    ensures |r| == |items|
  {
    if items == [] then []
    else
      var n := |items| - 1;
      Verdicts(w, items[..n], g)
      + [Visit(VisitAll(w, items[..n], g).world, items[n], g.sources, g.force, g.conditions(n)).verdict]
  }

  lemma {:induction false} VerdictAt(w: World, items: seq<Item>, g: Setting, n: nat)
    requires n < |items|
    ensures Verdicts(w, items, g)[n]
         == Visit(VisitAll(w, items[..n], g).world, items[n], g.sources, g.force, g.conditions(n)).verdict
  {
    var last := |items| - 1;
    if n < last {
      var front := items[..last];
      assert front[..n] == items[..n] && front[n] == items[n];
      assert Verdicts(w, items, g)[n] == Verdicts(w, front, g)[n];
      VerdictAt(w, front, g, n);
    }
  }

  lemma OneMoreVisit(w: World, items: seq<Item>, g: Setting, n: nat)
    requires n < |items|
    ensures var p := VisitAll(w, items[..n], g);
            var e := Visit(p.world, items[n], g.sources, g.force, g.conditions(n));
            VisitAll(w, items[..n + 1], g) == Progress(e.world, Counted(p.tally, items[n].id, e.verdict))
  {
    assert items[..n + 1][..n] == items[..n];
  }

  function Skips(verdicts: seq<Verdict>): nat {
    if verdicts == [] then 0
    else Skips(verdicts[..|verdicts| - 1]) + if verdicts[|verdicts| - 1] == Skipped then 1 else 0
  }

  /** The costs of the processed items, one after the other. */
  function Costs(verdicts: seq<Verdict>): seq<nat> {
    if verdicts == [] then []
    else
      var last := verdicts[|verdicts| - 1];
      Costs(verdicts[..|verdicts| - 1]) + if last.Processed? then [last.cost] else []
  }

  function Sum(costs: seq<nat>): nat {
    if costs == [] then 0 else Sum(costs[..|costs| - 1]) + costs[|costs| - 1]
  }

  /** The failures, each with the item it happened to. */
  function Failures(items: seq<Item>, verdicts: seq<Verdict>): seq<Error>
    requires |items| == |verdicts|
  {
    if verdicts == [] then []
    else
      var n := |verdicts| - 1;
      Failures(items[..n], verdicts[..n])
      + if verdicts[n].Failed? then [Error(items[n].id, verdicts[n].failure)] else []
  }

  /** The tally is that of these verdicts on these items. */
  predicate IsTallyOf(t: Tally, items: seq<Item>, verdicts: seq<Verdict>) {
    && |items| == |verdicts|
    && t.processed + t.skipped + t.failed == |items| && |t.errors| == t.failed
    && t.processed == |Costs(verdicts)| && t.totalCost == Sum(Costs(verdicts))
    && t.skipped == Skips(verdicts) && t.errors == Failures(items, verdicts)
  }

  lemma CostsOneMore(verdicts: seq<Verdict>, v: Verdict)
    ensures |Costs(verdicts + [v])| == |Costs(verdicts)| + if v.Processed? then 1 else 0
    ensures Sum(Costs(verdicts + [v])) == Sum(Costs(verdicts)) + if v.Processed? then v.cost else 0
  {
    assert (verdicts + [v])[..|verdicts|] == verdicts;
    if v.Processed? {
      var costs := Costs(verdicts) + [v.cost];
      assert costs[..|costs| - 1] == Costs(verdicts);
    } else {
      assert Costs(verdicts) + [] == Costs(verdicts);
    }
  }

  lemma CountedOneMore(t: Tally, items: seq<Item>, verdicts: seq<Verdict>, item: Item, v: Verdict)
    requires IsTallyOf(t, items, verdicts)
    ensures IsTallyOf(Counted(t, item.id, v), items + [item], verdicts + [v])
  {
    CostsOneMore(verdicts, v);
    assert (verdicts + [v])[..|verdicts|] == verdicts && (items + [item])[..|items|] == items;
  }

  /**
   Every visited item is counted once: as processed, at its cost, as skipped, or as failed; and the errors
   are the failures, in order.
   */
  lemma {:induction false} TallyAddsUp(w: World, items: seq<Item>, g: Setting)
    ensures var t, verdicts := VisitAll(w, items, g).tally, Verdicts(w, items, g);
            && t.processed + t.skipped + t.failed == |items| && |t.errors| == t.failed
            && t.processed == |Costs(verdicts)| && t.totalCost == Sum(Costs(verdicts))
            && t.skipped == Skips(verdicts) && t.errors == Failures(items, verdicts)
  {
    TallyIsOfVerdicts(w, items, g);
  }

  lemma {:induction false} TallyIsOfVerdicts(w: World, items: seq<Item>, g: Setting)
    ensures IsTallyOf(VisitAll(w, items, g).tally, items, Verdicts(w, items, g))
  {
    if items != [] {
      var n := |items| - 1;
      TallyIsOfVerdicts(w, items[..n], g);
      var p := VisitAll(w, items[..n], g);
      var v := Visit(p.world, items[n], g.sources, g.force, g.conditions(n)).verdict;
      CountedOneMore(p.tally, items[..n], Verdicts(w, items[..n], g), items[n], v);
      assert items[..n] + [items[n]] == items;
    }
  }

  // ---------------------------------------------------------------- where a run with a limit stops

  /** The run has visited n items and stops: the limit is reached for the first time, or the queue ends. */
  ghost predicate StopsAt(w: World, queue: seq<Item>, g: Setting, limit: nat, n: nat) {
    && n <= |queue|
    && (VisitAll(w, queue[..n], g).tally.processed == limit || n == |queue|)
    && forall m :: 0 <= m < n ==> VisitAll(w, queue[..m], g).tally.processed < limit
  }

  /** There is exactly one such place, so how the queue is cut into pages cannot matter. */
  lemma StopIsUnique(w: World, queue: seq<Item>, g: Setting, limit: nat, m: nat, n: nat)
    requires StopsAt(w, queue, g, limit, m) && StopsAt(w, queue, g, limit, n)
    ensures m == n
  {
  }

  /** A run with a limit that has visited n items and come to p. */
  ghost predicate HasVisited(w: World, queue: seq<Item>, g: Setting, limit: nat, n: nat, p: Progress) {
    && n <= |queue|
    && VisitAll(w, queue[..n], g) == p && p.tally.processed <= limit
    && forall m :: 0 <= m < n ==> VisitAll(w, queue[..m], g).tally.processed < limit
  }

  lemma NoneVisited(w: World, queue: seq<Item>, g: Setting, limit: nat)
    ensures HasVisited(w, queue, g, limit, 0, Progress(w, NO_TALLY))
  {
    assert queue[..0] == [];
  }

  lemma VisitsOneMore(w: World, queue: seq<Item>, g: Setting, limit: nat, n: nat, p: Progress, q: Progress)
    requires HasVisited(w, queue, g, limit, n, p) && n < |queue| && p.tally.processed < limit
    requires var e := Visit(p.world, queue[n], g.sources, g.force, g.conditions(n));
             q == Progress(e.world, Counted(p.tally, queue[n].id, e.verdict))
    ensures HasVisited(w, queue, g, limit, n + 1, q)
  {
    OneMoreVisit(w, queue, g, n);
  }

  /** A run that is over: it stopped where a run with the limit stops, and accounts for every visit. */
  ghost predicate IsOutcome(w: World, queue: seq<Item>, g: Setting, limit: nat, n: nat, p: Progress) {
    && StopsAt(w, queue, g, limit, n)
    && VisitAll(w, queue[..n], g) == p
    && p.tally.processed + p.tally.skipped + p.tally.failed == n
    && |p.tally.errors| == p.tally.failed
  }

  lemma HasStopped(w: World, queue: seq<Item>, g: Setting, limit: nat, n: nat, p: Progress)
    requires HasVisited(w, queue, g, limit, n, p) && (p.tally.processed == limit || n == |queue|)
    ensures IsOutcome(w, queue, g, limit, n, p)
  {
    TallyAddsUp(w, queue[..n], g);
  }

  // ---------------------------------------------------------------- what is resolved afterwards

  /** Some visit of the item saved its resolution. */
  predicate SavedIn(items: seq<Item>, verdicts: seq<Verdict>, id: Id)
    requires |items| == |verdicts|
  {
    exists n :: 0 <= n < |items| && items[n].id == id && Saves(verdicts[n])
  }

  lemma SavedInFront(items: seq<Item>, verdicts: seq<Verdict>, id: Id)
    requires |items| == |verdicts| > 0
    ensures var n := |items| - 1;
            SavedIn(items, verdicts, id)
            <==> SavedIn(items[..n], verdicts[..n], id) || (items[n].id == id && Saves(verdicts[n]))
  {
    var n := |items| - 1;
    if SavedIn(items[..n], verdicts[..n], id) {
      var m :| 0 <= m < n && items[..n][m].id == id && Saves(verdicts[..n][m]);
      assert items[m].id == id && Saves(verdicts[m]);
    }
    if SavedIn(items, verdicts, id) {
      var m :| 0 <= m <= n && items[m].id == id && Saves(verdicts[m]);
      assert m < n ==> items[..n][m].id == id && Saves(verdicts[..n][m]);
    }
  }

  lemma VisitResolves(w: World, item: Item, g: Setting, c: Conditions, id: Id)
    ensures var e := Visit(w, item, g.sources, g.force, c);
            IsResolved(e.world.rows, id) <==> IsResolved(w.rows, id) || (item.id == id && Saves(e.verdict))
  {
    VisitFacts(w, item, g.sources, g.force, c);
  }

  /** An item is resolved after a run exactly when it was before or some visit of it saved. */
  lemma {:induction false} ResolvedIff(w: World, items: seq<Item>, g: Setting, id: Id)
    ensures IsResolved(VisitAll(w, items, g).world.rows, id)
       <==> IsResolved(w.rows, id) || SavedIn(items, Verdicts(w, items, g), id)
  {
    if items != [] {
      var n := |items| - 1;
      ResolvedIff(w, items[..n], g, id);
      SavedInFront(items, Verdicts(w, items, g), id);
      assert Verdicts(w, items, g)[..n] == Verdicts(w, items[..n], g);
      VisitResolves(VisitAll(w, items[..n], g).world, items[n], g, g.conditions(n), id);
    }
  }

  /**
   What one run saved, the next run that is not forced skips: processed items, and also items that
   failed when their card was updated.
   */
  lemma SavedItemsAreSkippedNext(w: World, items: seq<Item>, g: Setting, n: nat, more: seq<Item>, h: Setting, m: nat)
    requires n < |items| && Saves(Verdicts(w, items, g)[n])
    requires m < |more| && more[m].id == items[n].id && !h.force && h.conditions(m).rowIsRead
    ensures Verdicts(VisitAll(w, items, g).world, more, h)[m] == Skipped
  {
    var t := VisitAll(w, items, g).world;
    ResolvedIff(w, items, g, items[n].id);
    ResolvedIff(t, more[..m], h, more[m].id);
    VerdictAt(t, more, h, m);
    VisitFacts(VisitAll(t, more[..m], h).world, more[m], h.sources, h.force, h.conditions(m));
  }

  // ---------------------------------------------------------------- costs

  /** The sum of the cost column over the whole table. */
  ghost function TableCost(rows: map<Id, Resolution>): nat
    decreases |rows|
  {
    if rows == map[] then 0
    else
      var id :| id in rows;
      rows[id].cost + TableCost(rows - {id})
  }

  lemma {:induction false} TableCostSplits(rows: map<Id, Resolution>, id: Id)
    requires id in rows
    ensures TableCost(rows) == rows[id].cost + TableCost(rows - {id})
    decreases |rows|
  {
    var k :| k in rows && TableCost(rows) == rows[k].cost + TableCost(rows - {k});
    if k != id {
      TableCostSplits(rows - {k}, id);
      TableCostSplits(rows - {id}, k);
      assert rows - {k} - {id} == rows - {id} - {k};
    }
  }

  function CostIn(rows: map<Id, Resolution>, id: Id): nat {
    if id in rows then rows[id].cost else 0
  }

  lemma TableCostChanges(rows: map<Id, Resolution>, id: Id, row: Resolution)
    ensures TableCost(rows[id := row]) + CostIn(rows, id) == TableCost(rows) + row.cost
  {
    TableCostSplits(rows[id := row], id);
    assert rows[id := row] - {id} == rows - {id};
    if id in rows {
      TableCostSplits(rows, id);
    } else {
      assert rows - {id} == rows;
    }
  }

  /** The costs of the rows that the run saved for items which then failed at their card. */
  function LostCost(w: World, items: seq<Item>, g: Setting): nat {
    if items == [] then 0
    else
      var n := |items| - 1;
      LostCost(w, items[..n], g)
      + if Verdicts(w, items, g)[n] == Failed(UpdatingCard) then CostIn(VisitAll(w, items, g).world.rows, items[n].id)
      else 0
  }

  /** The costs that the saved rows had before they were overwritten. */
  function ReplacedCost(w: World, items: seq<Item>, g: Setting): nat {
    if items == [] then 0
    else
      var n := |items| - 1;
      ReplacedCost(w, items[..n], g)
      + if Saves(Verdicts(w, items, g)[n]) then CostIn(VisitAll(w, items[..n], g).world.rows, items[n].id) else 0
  }

  /**
   Costs are conserved: the cost column of the table grows by the total that the run reports and by
   the costs of the items lost at their card, less what the overwritten rows had cost.
   */
  lemma {:induction false} CostsAreConserved(w: World, items: seq<Item>, g: Setting)
    ensures var p := VisitAll(w, items, g);
            TableCost(p.world.rows) + ReplacedCost(w, items, g)
            == TableCost(w.rows) + p.tally.totalCost + LostCost(w, items, g)
  {
    if items != [] {
      var n := |items| - 1;
      CostsAreConserved(w, items[..n], g);
      var p := VisitAll(w, items[..n], g);
      VisitCost(p.world, items[n], g.sources, g.force, g.conditions(n));
    }
  }

  lemma VisitCost(w: World, item: Item, sources: seq<SourceName>, force: bool, c: Conditions)
    ensures var e := Visit(w, item, sources, force, c);
            TableCost(e.world.rows) + (if Saves(e.verdict) then CostIn(w.rows, item.id) else 0)
            == TableCost(w.rows) + (if Saves(e.verdict) then CostIn(e.world.rows, item.id) else 0)
    ensures var e := Visit(w, item, sources, force, c);
            e.verdict.Processed? ==> e.verdict.cost == CostIn(e.world.rows, item.id)
  {
    VisitFacts(w, item, sources, force, c);
    var e := Visit(w, item, sources, force, c);
    if Saves(e.verdict) {
      TableCostChanges(w.rows, item.id, e.world.rows[item.id]);
    }
  }
}
