/** Any mix of enrichment visits and rejections, each taken as a whole: rejection is permanent. */
module EnrichmentRuns {
  import opened Prelude
  import opened Enrichment

  /** How the stores behave during a rejection. */
  datatype RejectConditions = RejectConditions(urlIsRead: bool, rowIsWritten: bool, cardIsCleared: bool)

  datatype Op = VisitItem(item: Item, force: bool, conditions: Conditions) | Reject(id: Id, answers: RejectConditions)

  /** The statement of RejectImage: the URL joins the list once, and the row is no longer resolved. */
  function RejectRow(rows: map<Id, Resolution>, id: Id, url: string): map<Id, Resolution> {
    var row :=
      if id !in rows then Resolution("", "", Manual, "", Cdn("", ""), Passthrough, 0, [url])
      else rows[id].(rawUrl := "", rejected := if url in rows[id].rejected then rows[id].rejected
           else rows[id].rejected + [url]);
    rows[id := row]
  }

  /** The use case: reject what is stored now, then clear the card. */
  function AfterReject(w: World, id: Id, c: RejectConditions): World {
    if id == "" || !c.urlIsRead || !c.rowIsWritten then w
    else
      var rows := RejectRow(w.rows, id, RawUrlOf(w.rows, id));
      World(rows, if c.cardIsCleared then w.cards[id := CardOf(w.cards, id).(image := "")] else w.cards)
  }

  function Step(w: World, sources: seq<SourceName>, op: Op): World {
    match op
    case VisitItem(item, force, c) => Visit(w, item, sources, force, c).world
    case Reject(id, c) => AfterReject(w, id, c)
  }

  function Run(w: World, sources: seq<SourceName>, ops: seq<Op>): World {
    if ops == [] then w else Step(Run(w, sources, ops[..|ops| - 1]), sources, ops[|ops| - 1])
  }

  // ---------------------------------------------------------------- rejection

  /** The image in use was not rejected, and no URL is listed twice. */
  predicate RowOk(row: Resolution) {
    (row.rawUrl != "" ==> row.rawUrl !in row.rejected) && Distinct(row.rejected)
  }

  ghost predicate RowsOk(rows: map<Id, Resolution>) {
    forall id :: id in rows ==> RowOk(rows[id])
  }

  lemma StepKeepsRowsOk(w: World, sources: seq<SourceName>, op: Op)
    requires RowsOk(w.rows)
    ensures RowsOk(Step(w, sources, op).rows)
  {
    match op
    case VisitItem(item, force, c) =>
      VisitFacts(w, item, sources, force, c);
      if Saves(Visit(w, item, sources, force, c).verdict) {
        assert RowOk(Step(w, sources, op).rows[item.id]);
      }
    case Reject(id, _) =>
  }

  /** One operation adds at most to the end of a rejected list. */
  lemma StepGrowsLists(w: World, sources: seq<SourceName>, op: Op, id: Id)
    ensures RejectedOf(w.rows, id) <= RejectedOf(Step(w, sources, op).rows, id)
  {
    if op.VisitItem? {
      VisitFacts(w, op.item, sources, op.force, op.conditions);
    }
  }

  /**
   Rejection is permanent. Over every run of visits and rejections, forced or not, whatever fails, no
   image in use is a rejected one, and rejected lists only grow and list each URL once.
   */
  lemma {:induction false} RejectionIsPermanent(w: World, sources: seq<SourceName>, ops: seq<Op>, id: Id)
    requires RowsOk(w.rows)
    ensures RowsOk(Run(w, sources, ops).rows)
    ensures RejectedOf(w.rows, id) <= RejectedOf(Run(w, sources, ops).rows, id)
  {
    if ops != [] {
      var front, last := ops[..|ops| - 1], ops[|ops| - 1];
      RejectionIsPermanent(w, sources, front, id);
      StepKeepsRowsOk(Run(w, sources, front), sources, last);
      StepGrowsLists(Run(w, sources, front), sources, last, id);
    }
  }

  /**
   After a rejection the product counts as unresolved, so the next batch does not skip it, and no run
   ever puts the rejected image back.
   */
  lemma RejectedImageNeverReturns(w: World, sources: seq<SourceName>, id: Id, c: RejectConditions, ops: seq<Op>)
    requires RowsOk(w.rows) && id != "" && c.urlIsRead && c.rowIsWritten
    ensures var t := AfterReject(w, id, c);
            var url := RawUrlOf(w.rows, id);
            && !IsResolved(t.rows, id)
            && (c.cardIsCleared ==> CardOf(t.cards, id).image == "")
            && (forall item: Item, force, visit :: item.id == id ==>
                                                     Visit(t, item, sources, force, visit).verdict != Skipped)
            && (url != "" ==> RawUrlOf(Run(t, sources, ops).rows, id) != url)
  {
    var t := AfterReject(w, id, c);
    var url := RawUrlOf(w.rows, id);
    StepKeepsRowsOk(w, sources, Reject(id, c));
    RejectionIsPermanent(t, sources, ops, id);
    forall item: Item, force, visit | item.id == id
      ensures Visit(t, item, sources, force, visit).verdict != Skipped
    {
      VisitFacts(t, item, sources, force, visit);
    }
    assert url in RejectedOf(t.rows, id);
    assert url in RejectedOf(Run(t, sources, ops).rows, id);
  }

  // ---------------------------------------------------------------- the catalogue's cards

  /** The card shows the stored image of a resolved product, and no image of one that is not. */
  predicate CardAgrees(w: World, id: Id) {
    id in w.rows ==> CardOf(w.cards, id).image == if w.rows[id].rawUrl != "" then w.rows[id].cdn.url else ""
  }

  /** The call to the catalogue that ends the operation fails. */
  predicate LosesCard(w: World, sources: seq<SourceName>, op: Op) {
    match op
    case VisitItem(item, force, c) => Visit(w, item, sources, force, c).verdict == Failed(UpdatingCard)
    case Reject(id, c) => !c.cardIsCleared
  }

  ghost predicate NoneLosesCard(w: World, sources: seq<SourceName>, ops: seq<Op>) {
    forall n :: 0 <= n < |ops| ==> !LosesCard(Run(w, sources, ops[..n]), sources, ops[n])
  }

  lemma StepKeepsCard(w: World, sources: seq<SourceName>, op: Op, id: Id)
    requires CardAgrees(w, id) && !LosesCard(w, sources, op)
    ensures CardAgrees(Step(w, sources, op), id)
  {
    if op.VisitItem? {
      VisitFacts(w, op.item, sources, op.force, op.conditions);
      if op.item.id != id {
        CardsElsewhere(w, op.item, sources, op.force, op.conditions, id);
      }
    }
  }

  lemma CardsElsewhere(w: World, item: Item, sources: seq<SourceName>, force: bool, c: Conditions, id: Id)
    requires id != item.id
    ensures CardOf(Visit(w, item, sources, force, c).world.cards, id) == CardOf(w.cards, id)
  {
  }

  /** As long as no call to the catalogue fails after the row was written, cards and rows agree. */
  lemma {:induction false} CardsFollowRows(w: World, sources: seq<SourceName>, ops: seq<Op>, id: Id)
    requires CardAgrees(w, id) && NoneLosesCard(w, sources, ops)
    ensures CardAgrees(Run(w, sources, ops), id)
  {
    if ops != [] {
      var front := ops[..|ops| - 1];
      forall n | 0 <= n < |front|
        ensures !LosesCard(Run(w, sources, front[..n]), sources, front[n])
      {
        assert front[..n] == ops[..n];
      }
      CardsFollowRows(w, sources, front, id);
      StepKeepsCard(Run(w, sources, front), sources, ops[|ops| - 1], id);
    }
  }

  predicate IsPlainVisit(op: Op) {
    op.VisitItem? && !op.force
  }

  /**
   A card that was lost stays lost: the row was saved, so every later visit that is not forced skips
   the product, and neither its row nor its card changes any more.
   */
  lemma {:induction false} LostCardStaysLost(w: World, sources: seq<SourceName>, item: Item, force: bool,
                                             c: Conditions, ops: seq<Op>)
    requires Visit(w, item, sources, force, c).verdict == Failed(UpdatingCard)
    requires forall n :: 0 <= n < |ops| ==> IsPlainVisit(ops[n])
    ensures var t := Visit(w, item, sources, force, c).world;
            var u := Run(t, sources, ops);
            && IsResolved(u.rows, item.id) && u.rows[item.id] == t.rows[item.id]
            && CardOf(u.cards, item.id) == CardOf(w.cards, item.id)
  {
    VisitFacts(w, item, sources, force, c);
    if ops != [] {
      var front, last := ops[..|ops| - 1], ops[|ops| - 1];
      LostCardStaysLost(w, sources, item, force, c, front);
      var u := Run(Visit(w, item, sources, force, c).world, sources, front);
      VisitFacts(u, last.item, sources, last.force, last.conditions);
      if last.item.id != item.id {
        CardsElsewhere(u, last.item, sources, last.force, last.conditions, item.id);
      }
    }
  }
}
