/**
 Image enrichment of one catalogue item: the cascade over the sources, the resolution that is stored,
 and the catalogue card that is updated. What the sources, the enhancer and the stores answer during
 a visit is part of the input.
 */
module Enrichment {
  import opened Prelude
  import opened Text
  import Relevance

  type Id = string

  datatype Item = Item(id: Id, ean: string, name: string, brand: string, category: string, businessType: string)

  datatype SourceName = ML | OFF | Firecrawl | Manual | Perplexity | DALLE

  datatype EnhancerKind = Passthrough | Replicate | Generated

  datatype Found = Found(
    gtin: string,
    ean: string,
    name: string,
    brand: string,
    category: string,
    image: string,
    source: SourceName
  )

  datatype Query =
    | ByGtin(gtin: string)
    | ByNameWithContext(name: string, category: string, businessType: string)
    | ByName(name: string)

  datatype Answer = Nothing | Broken | Data(found: Found)

  datatype Cdn = Cdn(url: string, key: string)

  /** A row of the resolution table. An empty rawUrl means "not resolved". */
  datatype Resolution = Resolution(
    key: string,
    ean: string,
    source: SourceName,
    rawUrl: string,
    cdn: Cdn,
    enhancer: EnhancerKind,
    cost: nat,
    rejected: seq<string>
  )

  /** What the catalogue shows of a product. */
  datatype Card = Card(image: string, gtin: string, ean: string, brand: string, category: string)

  const NO_CARD := Card("", "", "", "", "")

  datatype World = World(rows: map<Id, Resolution>, cards: map<Id, Card>)

  /** How everything outside the service behaves during one visit of an item. */
  datatype Conditions = Conditions(
    rowIsRead: bool, // the skip check succeeds
    rejectedAreRead: bool,
    ask: nat -> Query -> Answer, // by the position of the source
    enhanced: Option<nat>, // its cost in cents
    uploaded: Option<Cdn>,
    saved: bool,
    cardIsUpdated: bool
  )

  datatype Failure = SkipCheck | FindingData | NoData | Enhancing | Uploading | Saving | UpdatingCard

  datatype Verdict = Skipped | Processed(cost: nat) | Failed(failure: Failure)

  // ---------------------------------------------------------------- the cascade

  const BY_WEIGHT := ["x kg", " kg", "xkg", "x1kg", "x 1 kg", "por kg", "granel", "x unidad", " docena"]

  predicate Contains(s: string, part: string) {
    exists i :: 0 <= i <= |s| && part <= s[i..]
  }

  predicate IsByWeight(name: string) {
    exists j :: 0 <= j < |BY_WEIGHT| && Contains(Lower(name), BY_WEIGHT[j])
  }

  /** Sold loose: no EAN, and no brand or a name that tells of a weight. */
  predicate IsGenericBulk(item: Item) {
    TrimSpace(item.ean) == "" && (TrimSpace(item.brand) == "" || IsByWeight(item.name))
  }

  function QueryFor(item: Item): Query {
    if item.ean != "" then ByGtin(item.ean)
    else if item.category != "" || item.businessType != ""
    then ByNameWithContext(item.name, item.category, item.businessType)
    else ByName(item.name)
  }

  /** An answer that the cascade takes from a source. */
  predicate Acceptable(item: Item, source: SourceName, answer: Answer, rejected: seq<string>) {
    && (IsGenericBulk(item) ==> source == DALLE)
    && answer.Data?
    && answer.found.image != ""
    && answer.found.image !in rejected
    && (answer.found.source == DALLE || answer.found.name == "" || Relevance.IsRelevant(item.name, answer.found.name))
  }

  /** The first source, from position i on, with an acceptable answer. */
  function FirstAcceptable(item: Item, sources: seq<SourceName>, ask: nat -> Query -> Answer, rejected: seq<string>,
                           i: nat): Option<Found>
    requires i <= |sources|
    decreases |sources| - i
  {
    if i == |sources| then None
    else if Acceptable(item, sources[i], ask(i)(QueryFor(item)), rejected) then Some(ask(i)(QueryFor(item)).found)
    else FirstAcceptable(item, sources, ask, rejected, i + 1)
  }

  /**
   What the cascade finds comes from the first source whose answer is acceptable; it finds nothing only
   when there is none.
   */
  lemma {:induction false} CascadeTakesFirst(item: Item, sources: seq<SourceName>, ask: nat -> Query -> Answer,
                                             rejected: seq<string>, i: nat)
    requires i <= |sources|
    ensures var r := FirstAcceptable(item, sources, ask, rejected, i);
            if r.None? then forall j :: i <= j < |sources| ==>
                                          !Acceptable(item, sources[j], ask(j)(QueryFor(item)), rejected)
            else exists j :: i <= j < |sources| && ask(j)(QueryFor(item)) == Data(r.value)
                             && Acceptable(item, sources[j], ask(j)(QueryFor(item)), rejected)
                             && forall k :: i <= k < j ==>
                                              !Acceptable(item, sources[k], ask(k)(QueryFor(item)), rejected)
    decreases |sources| - i
  {
    if i < |sources| && !Acceptable(item, sources[i], ask(i)(QueryFor(item)), rejected) {
      CascadeTakesFirst(item, sources, ask, rejected, i + 1);
    }
  }

  /**
   The cascade in terms of what is asked and answered: a product with a code is asked for by it, otherwise
   by its name, with category and business type if it has one of them. What is found is an answer to that
   question, with an image that was not rejected and a title that matches, given by the generator if the
   product is sold loose; and as soon as some source answers so, something is found.
   */
  lemma CascadeGuards(item: Item, sources: seq<SourceName>, ask: nat -> Query -> Answer, rejected: seq<string>)
    ensures var query := if item.ean != "" then ByGtin(item.ean)
                         else if item.category == "" && item.businessType == "" then ByName(item.name)
                         else ByNameWithContext(item.name, item.category, item.businessType);
            var r := FirstAcceptable(item, sources, ask, rejected, 0);
            && (r.Some? ==>
                  && r.value.image != "" && r.value.image !in rejected
                  && (r.value.source != DALLE && r.value.name != "" ==> Relevance.IsRelevant(item.name, r.value.name))
                  && exists j :: 0 <= j < |sources| && ask(j)(query) == Data(r.value)
                                 && (IsGenericBulk(item) ==> sources[j] == DALLE))
            && (forall j ::
                  0 <= j < |sources| && ask(j)(query).Data? && (IsGenericBulk(item) ==> sources[j] == DALLE) ==>
                    var f := ask(j)(query).found;
                    && f.image != "" && f.image !in rejected
                    && (f.source == DALLE || f.name == "" || Relevance.IsRelevant(item.name, f.name))
                    ==> r.Some?)
  {
    CascadeTakesFirst(item, sources, ask, rejected, 0);
  }

  // ---------------------------------------------------------------- loose products

  /** The text stands in the name at position i, up to case. */
  predicate StandsAt(name: string, i: int, text: string) {
    0 <= i <= |name| - |text| && EqualUpToCase(name[i..i + |text|], text)
  }

  /** Digits, spaces and small letters. */
  predicate IsSmall(text: string) {
    forall j :: 0 <= j < |text| ==> text[j] == ' ' || '0' <= text[j] <= '9' || 'a' <= text[j] <= 'z'
  }

  lemma LowerStandsAt(name: string, i: nat, text: string)
    requires IsLatin(name) && IsSmall(text) && i <= |name|
    ensures text <= Lower(name)[i..] <==> StandsAt(name, i, text)
  {
    if i <= |name| - |text| {
      forall j | 0 <= j < |text|
        ensures LowerChar(name[i + j]) == text[j]
           <==> name[i + j] == text[j] || IsSmallOf(name[i + j], text[j]) || IsSmallOf(text[j], name[i + j])
      {
      }
      var part := name[i..i + |text|];
      assert forall j :: 0 <= j < |text| ==> part[j] == name[i + j];
      assert forall j :: 0 <= j < |text| ==> Lower(name)[i..][j] == LowerChar(name[i + j]);
      assert text <= Lower(name)[i..] <==> forall j :: 0 <= j < |text| ==> Lower(name)[i..][j] == text[j];
    }
  }

  lemma ContainsIff(name: string, text: string)
    requires IsLatin(name) && IsSmall(text)
    ensures Contains(Lower(name), text) <==> exists i :: StandsAt(name, i, text)
  {
    if i :| 0 <= i <= |Lower(name)| && text <= Lower(name)[i..] {
      LowerStandsAt(name, i, text);
    }
    if i :| StandsAt(name, i, text) {
      LowerStandsAt(name, i, text);
    }
  }

  /** Exactly which products are sold loose: no code, and no brand or, in the name, one of these texts. */
  lemma LooseIff(item: Item)
    requires IsLatin(item.name)
    ensures var texts := ["x kg", " kg", "xkg", "x1kg", "x 1 kg", "por kg", "granel", "x unidad", " docena"];
            IsGenericBulk(item)
            <==> TrimSpace(item.ean) == ""
                 && (TrimSpace(item.brand) == "" || exists n, i :: 0 <= n < |texts| && StandsAt(item.name, i, texts[n]))
  {
    var texts := ["x kg", " kg", "xkg", "x1kg", "x 1 kg", "por kg", "granel", "x unidad", " docena"];
    assert BY_WEIGHT == texts;
    forall n | 0 <= n < |texts|
      ensures Contains(Lower(item.name), texts[n]) <==> exists i :: StandsAt(item.name, i, texts[n])
    {
      ContainsIff(item.name, texts[n]);
    }
  }

  // ---------------------------------------------------------------- one visit

  function Utf8Length(c: char): nat {
    if c as int < 0x80 then 1 else if c as int < 0x800 then 2 else if c as int < 0x10000 then 3 else 4
  }

  predicate IsKeyChar(c: char) {
    'a' <= c <= 'z' || 'A' <= c <= 'Z' || '0' <= c <= '9' || c == '_'
  }

  /** Each byte that is not an ASCII letter or digit becomes an underscore. */
  function Sanitized(name: string): (r: string)
    ensures forall i :: 0 <= i < |r| ==> IsKeyChar(r[i])
  {
    if name == "" then ""
    else
      var c := name[0];
      (if IsKeyChar(c) then [c] else seq(Utf8Length(c), _ => '_')) + Sanitized(name[1..])
  }

  /** Of an ASCII name each letter, digit and underscore stays, and every other character becomes an underscore. */
  lemma {:induction false} SanitizedAscii(name: string)
    requires forall i :: 0 <= i < |name| ==> name[i] < '\U{80}'
    ensures |Sanitized(name)| == |name|
    ensures forall i :: 0 <= i < |name| ==>
                          var c := name[i];
                          Sanitized(name)[i]
                          == if 'a' <= c <= 'z' || 'A' <= c <= 'Z' || '0' <= c <= '9' then c else '_'
  {
    if name != "" {
      SanitizedAscii(name[1..]);
    }
  }

  /** Any other character becomes as many underscores as it has bytes in UTF-8. */
  lemma {:induction false} SanitizedOther(before: string, c: char, after: string)
    requires c >= '\U{80}'
    ensures Sanitized(before + [c] + after)
         == Sanitized(before) + (if c < '\U{800}' then "__" else if c < '\U{10000}' then "___" else "____")
            + Sanitized(after)
  {
    if before == "" {
      assert before + [c] + after == [c] + after && ([c] + after)[1..] == after;
      assert Sanitized(before) == "";
    } else {
      assert (before + [c] + after)[1..] == before[1..] + [c] + after;
      SanitizedOther(before[1..], c, after);
    }
  }

  /** The key for an item without better data: its EAN, or at most 50 bytes of its sanitized name. */
  function ResolveKey(item: Item): string {
    if item.ean != "" then item.ean else Sanitized(item.name)[..Min(50, |Sanitized(item.name)|)]
  }

  /** A GTIN or EAN that the source found is a better key. */
  function KeyFor(item: Item, found: Found): string {
    if found.gtin != "" then found.gtin else if found.ean != "" then found.ean else ResolveKey(item)
  }

  /** A generated image costs 4 cents, whatever the enhancer says. */
  function CostOf(found: Found, enhanced: nat): nat {
    if found.source == DALLE then 4 else enhanced
  }

  function KindOf(found: Found, enhanced: nat): EnhancerKind {
    if found.source == DALLE then Generated else if enhanced > 0 then Replicate else Passthrough
  }

  function RejectedOf(rows: map<Id, Resolution>, id: Id): seq<string> {
    if id in rows then rows[id].rejected else []
  }

  function RawUrlOf(rows: map<Id, Resolution>, id: Id): string {
    if id in rows then rows[id].rawUrl else ""
  }

  predicate IsResolved(rows: map<Id, Resolution>, id: Id) {
    id in rows && rows[id].rawUrl != ""
  }

  /** The row that is saved; on conflict the rejected list of the old row stays. */
  function NewRow(item: Item, found: Found, enhanced: nat, cdn: Cdn, rejected: seq<string>): Resolution {
    Resolution(KeyFor(item, found), found.ean, found.source, found.image, cdn, KindOf(found, enhanced),
               CostOf(found, enhanced), rejected)
  }

  function Replace(stored: string, sent: string): string {
    if sent != "" then sent else stored
  }

  /** Empty fields are not sent, except the image. */
  function UpdatedCard(card: Card, image: string, found: Found): Card {
    Card(image, Replace(card.gtin, found.gtin), Replace(card.ean, found.ean),
         Replace(card.brand, found.brand), Replace(card.category, found.category))
  }

  function CardOf(cards: map<Id, Card>, id: Id): Card {
    if id in cards then cards[id] else NO_CARD
  }

  datatype Effect = Effect(world: World, verdict: Verdict)

  /** The rest of a visit once there is data: enhance, upload, save, update the card. */
  function Store(w: World, item: Item, found: Found, c: Conditions): Effect {
    if c.enhanced.None? then Effect(w, Failed(Enhancing))
    else if c.uploaded.None? then Effect(w, Failed(Uploading))
    else if !c.saved then Effect(w, Failed(Saving))
    else
      var row := NewRow(item, found, c.enhanced.value, c.uploaded.value, RejectedOf(w.rows, item.id));
      var rows := w.rows[item.id := row];
      if !c.cardIsUpdated then Effect(World(rows, w.cards), Failed(UpdatingCard))
      else
        var card := UpdatedCard(CardOf(w.cards, item.id), c.uploaded.value.url, found);
        Effect(World(rows, w.cards[item.id := card]), Processed(row.cost))
  }

  /** Skip, or find data and store it. */
  function Visit(w: World, item: Item, sources: seq<SourceName>, force: bool, c: Conditions): Effect {
    if !force && !c.rowIsRead then Effect(w, Failed(SkipCheck))
    else if !force && IsResolved(w.rows, item.id) then Effect(w, Skipped)
    else if !c.rejectedAreRead then Effect(w, Failed(FindingData))
    else
      match FirstAcceptable(item, sources, c.ask, RejectedOf(w.rows, item.id), 0)
      case None => Effect(w, Failed(NoData))
      case Some(found) => Store(w, item, found, c)
  }

  /** The visit stored a resolution, whether or not the card was then updated. */
  predicate Saves(v: Verdict) {
    v.Processed? || v == Failed(UpdatingCard)
  }

  /** The facts about one visit that its callers need. */
  lemma VisitFacts(w: World, item: Item, sources: seq<SourceName>, force: bool, c: Conditions)
    ensures var e := Visit(w, item, sources, force, c);
            if Saves(e.verdict) then
              && item.id in e.world.rows
              && e.world.rows == w.rows[item.id := e.world.rows[item.id]]
              && e.world.rows[item.id].rawUrl != ""
              && e.world.rows[item.id].rawUrl !in RejectedOf(w.rows, item.id)
              && e.world.rows[item.id].rejected == RejectedOf(w.rows, item.id)
              && (e.verdict.Processed? ==> e.verdict.cost == e.world.rows[item.id].cost && item.id in e.world.cards
                                           && e.world.cards[item.id].image == e.world.rows[item.id].cdn.url)
              && (e.verdict.Failed? ==> e.world.cards == w.cards)
            else e.world == w
    ensures Visit(w, item, sources, force, c).verdict == Skipped
       <==> !force && c.rowIsRead && IsResolved(w.rows, item.id)
  {
    CascadeGuards(item, sources, c.ask, RejectedOf(w.rows, item.id));
  }

  /** Which step failed, and that all before it went well. */
  lemma FailureTellsStep(w: World, item: Item, sources: seq<SourceName>, force: bool, c: Conditions)
    ensures var v := Visit(w, item, sources, force, c).verdict;
            var looked := force || (c.rowIsRead && !(item.id in w.rows && w.rows[item.id].rawUrl != ""));
            var found := FirstAcceptable(item, sources, c.ask, RejectedOf(w.rows, item.id), 0);
            && (v == Failed(SkipCheck) <==> !force && !c.rowIsRead)
            && (v == Skipped <==> !looked && c.rowIsRead)
            && (v == Failed(FindingData) <==> looked && !c.rejectedAreRead)
            && (v == Failed(NoData) <==> looked && c.rejectedAreRead && found.None?)
            && var had := looked && c.rejectedAreRead && found.Some?;
            && (v == Failed(Enhancing) <==> had && c.enhanced.None?)
            && (v == Failed(Uploading) <==> had && c.enhanced.Some? && c.uploaded.None?)
            && (v == Failed(Saving) <==> had && c.enhanced.Some? && c.uploaded.Some? && !c.saved)
            && (v == Failed(UpdatingCard) <==>
                had && c.enhanced.Some? && c.uploaded.Some? && c.saved && !c.cardIsUpdated)
  {
  }

  /**
   What a visit that stores a resolution writes: the row under the found GTIN or EAN, or else under the
   item's EAN or at most 50 characters of its name, at 4 cents if the image was generated; and, if the card
   is updated, the new image with whatever else was found.
   */
  lemma StoredVisitShows(w: World, item: Item, sources: seq<SourceName>, force: bool, c: Conditions)
    requires Saves(Visit(w, item, sources, force, c).verdict)
    ensures var found := FirstAcceptable(item, sources, c.ask, RejectedOf(w.rows, item.id), 0);
            && found.Some? && c.enhanced.Some? && c.uploaded.Some?
            && var e, f := Visit(w, item, sources, force, c), found.value;
            && item.id in e.world.rows
            && var row := e.world.rows[item.id];
            && row.ean == f.ean && row.source == f.source && row.rawUrl == f.image && row.cdn == c.uploaded.value
            && (if f.gtin != "" then row.key == f.gtin else if f.ean != "" then row.key == f.ean
                else if item.ean != "" then row.key == item.ean
                else row.key <= Sanitized(item.name) && |row.key| == Min(50, |Sanitized(item.name)|))
            && (if f.source == DALLE then row.enhancer == Generated && row.cost == 4
                else row.cost == c.enhanced.value
                     && row.enhancer == (if row.cost > 0 then Replicate else Passthrough))
  {
  }

  lemma UpdatedVisitShows(w: World, item: Item, sources: seq<SourceName>, force: bool, c: Conditions)
    requires Visit(w, item, sources, force, c).verdict.Processed?
    ensures var found := FirstAcceptable(item, sources, c.ask, RejectedOf(w.rows, item.id), 0);
            && found.Some? && c.uploaded.Some?
            && var e, f := Visit(w, item, sources, force, c), found.value;
            && item.id in e.world.rows && item.id in e.world.cards
            && e.verdict.cost == e.world.rows[item.id].cost
            && e.world.cards == w.cards[item.id := e.world.cards[item.id]]
            && var before := if item.id in w.cards then w.cards[item.id] else Card("", "", "", "", "");
            && e.world.cards[item.id].image == c.uploaded.value.url
            && e.world.cards[item.id].gtin == (if f.gtin != "" then f.gtin else before.gtin)
            && e.world.cards[item.id].ean == (if f.ean != "" then f.ean else before.ean)
            && e.world.cards[item.id].brand == (if f.brand != "" then f.brand else before.brand)
            && e.world.cards[item.id].category == (if f.category != "" then f.category else before.category)
  {
  }
}
