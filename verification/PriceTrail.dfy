/** A stored product and its price history are a fold of the observations that were accepted for it. */
module PriceTrails {
  import opened Prelude
  import opened RawProducts
  import opened Products
  import opened Catalogues
  import opened Shops

  // ---------------------------------------------------------------- independent definitions

  /** The list without the elements that repeat the one just before them. */
  function Dedup(prices: seq<int>): seq<int> {
    if |prices| <= 1 then prices
    else
      var n := |prices| - 1;
      Dedup(prices[..n]) + if prices[n] == prices[n - 1] then [] else [prices[n]]
  }

  function OptSeq(p: Option<int>): seq<int> {
    match p
    case Some(c) => [c]
    case None => []
  }

  /** The prices that a list of observations reports, leaving out those that report none. */
  function PricesIn(raws: seq<Raw>): seq<int> {
    if raws == [] then []
    else
      PricesIn(raws[..|raws| - 1]) + OptSeq(raws[|raws| - 1].price)
  }

  /** The first non-empty string. */
  function FirstFilled(texts: seq<string>): string {
    if texts == [] then "" else if texts[0] != "" then texts[0] else FirstFilled(texts[1..])
  }

  function Images(raws: seq<Raw>): seq<string> {
    seq(|raws|, i requires 0 <= i < |raws| => raws[i].image)
  }

  function Categories(raws: seq<Raw>): seq<string> {
    seq(|raws|, i requires 0 <= i < |raws| => raws[i].category)
  }

  function Brands(raws: seq<Raw>): seq<string> {
    seq(|raws|, i requires 0 <= i < |raws| => raws[i].brand)
  }

  function Descriptions(raws: seq<Raw>): seq<string> {
    seq(|raws|, i requires 0 <= i < |raws| => raws[i].description)
  }

  function Urls(raws: seq<Raw>): seq<string> {
    seq(|raws|, i requires 0 <= i < |raws| => raws[i].url)
  }

  /** The operation is an observation of key k that the store will accept. */
  predicate Accepts(s: Shop, op: Op, k: Key) {
    && op.Observe? && op.raw.title != "" && Subject(op) == k
    && (k in s.rows ==> !s.rows[k].blocked && s.rows[k].hiddenAt.None?)
  }

  /** The accepted observations of key k, in order. */
  function Accepted(s: Shop, ops: seq<Op>, k: Key): seq<Raw> {
    if ops == [] then []
    else
      var last := ops[|ops| - 1];
      Accepted(s, ops[..|ops| - 1], k) + if Accepts(Run(s, ops[..|ops| - 1]), last, k) then [last.raw] else []
  }

  /** When they were made. */
  function AcceptedAt(s: Shop, ops: seq<Op>, k: Key): seq<Time> {
    if ops == [] then []
    else
      var last := ops[|ops| - 1];
      AcceptedAt(s, ops[..|ops| - 1], k) + if Accepts(Run(s, ops[..|ops| - 1]), last, k) then [last.now] else []
  }

  /** When an observation last reported another price than the one reported before it. */
  function LastChange(raws: seq<Raw>, times: seq<Time>): Option<Time>
    requires |raws| == |times|
  {
    if raws == [] then None
    else
      var n := |raws| - 1;
      var before := PricesIn(raws[..n]);
      if raws[n].price.Some? && before != [] && raws[n].price.value != before[|before| - 1] then Some(times[n])
      else LastChange(raws[..n], times[..n])
  }

  /** The product's price history followed by its current price. */
  function Trail(s: Shop, k: Key): seq<int> {
    if k !in s.rows then []
    else
      PricesOf(s, k) + OptSeq(s.rows[k].info.price)
  }

  /** What a list of observations says about a product. */
  ghost predicate IsFoldOf(p: Info, raws: seq<Raw>) {
    && raws != []
    && p.title == raws[0].title && p.sku == raws[0].sku && p.ean == raws[0].ean
    && p.image == FirstFilled(Images(raws))
    && p.category == FirstFilled(Categories(raws))
    && p.brand == FirstFilled(Brands(raws))
    && p.description == FirstFilled(Descriptions(raws))
    && p.url == FirstFilled(Urls(raws))
  }

  // ---------------------------------------------------------------- lists

  lemma {:induction false} DedupKeepsLast(prices: seq<int>)
    requires prices != []
    ensures Dedup(prices) != [] && Dedup(prices)[|Dedup(prices)| - 1] == prices[|prices| - 1]
  {
    if |prices| > 1 {
      DedupKeepsLast(prices[..|prices| - 1]);
    }
  }

  lemma {:induction false} FirstFilledAppends(texts: seq<string>, text: string)
    ensures FirstFilled(texts + [text]) == Fill(FirstFilled(texts), text)
  {
    if texts == [] {
      assert [text][1..] == [];
    } else {
      assert (texts + [text])[1..] == texts[1..] + [text];
      FirstFilledAppends(texts[1..], text);
    }
  }

  // ---------------------------------------------------------------- one observation

  lemma ImagesGrow(raws: seq<Raw>, raw: Raw)
    ensures FirstFilled(Images(raws + [raw])) == Fill(FirstFilled(Images(raws)), raw.image)
  {
    assert Images(raws + [raw]) == Images(raws) + [raw.image];
    FirstFilledAppends(Images(raws), raw.image);
  }

  lemma CategoriesGrow(raws: seq<Raw>, raw: Raw)
    ensures FirstFilled(Categories(raws + [raw])) == Fill(FirstFilled(Categories(raws)), raw.category)
  {
    assert Categories(raws + [raw]) == Categories(raws) + [raw.category];
    FirstFilledAppends(Categories(raws), raw.category);
  }

  lemma BrandsGrow(raws: seq<Raw>, raw: Raw)
    ensures FirstFilled(Brands(raws + [raw])) == Fill(FirstFilled(Brands(raws)), raw.brand)
  {
    assert Brands(raws + [raw]) == Brands(raws) + [raw.brand];
    FirstFilledAppends(Brands(raws), raw.brand);
  }

  lemma DescriptionsGrow(raws: seq<Raw>, raw: Raw)
    ensures FirstFilled(Descriptions(raws + [raw])) == Fill(FirstFilled(Descriptions(raws)), raw.description)
  {
    assert Descriptions(raws + [raw]) == Descriptions(raws) + [raw.description];
    FirstFilledAppends(Descriptions(raws), raw.description);
  }

  lemma UrlsGrow(raws: seq<Raw>, raw: Raw)
    ensures FirstFilled(Urls(raws + [raw])) == Fill(FirstFilled(Urls(raws)), raw.url)
  {
    assert Urls(raws + [raw]) == Urls(raws) + [raw.url];
    FirstFilledAppends(Urls(raws), raw.url);
  }

  /** The fill-once fields after an observation. */
  lemma ObservedFields(p: Info, raw: Raw, now: Time)
    ensures var o := Observed(p, raw, now);
            && o.title == p.title && o.sku == p.sku && o.ean == p.ean
            && o.image == Fill(p.image, raw.image) && o.category == Fill(p.category, raw.category)
            && o.brand == Fill(p.brand, raw.brand) && o.description == Fill(p.description, raw.description)
            && o.url == Fill(p.url, raw.url)
  {
  }

  /** Adding one observation to the list it is the fold of. */
  lemma FoldGrows(p: Info, raws: seq<Raw>, raw: Raw, now: Time)
    requires IsFoldOf(p, raws)
    ensures IsFoldOf(Observed(p, raw, now), raws + [raw])
  {
    ObservedFields(p, raw, now);
    ImagesGrow(raws, raw);
    CategoriesGrow(raws, raw);
    BrandsGrow(raws, raw);
    DescriptionsGrow(raws, raw);
    UrlsGrow(raws, raw);
  }

  lemma FoldStarts(raw: Raw, now: Time)
    ensures IsFoldOf(NewInfo(raw, now), [raw])
  {
    assert Images([raw]) == [raw.image] && Categories([raw]) == [raw.category] && Brands([raw]) == [raw.brand];
    assert Descriptions([raw]) == [raw.description] && Urls([raw]) == [raw.url];
    assert [raw.image][1..] == [] && [raw.category][1..] == [] && [raw.brand][1..] == [];
    assert [raw.description][1..] == [] && [raw.url][1..] == [];
  }

  /** An accepted observation of a stored product: its new fields and its new trail. */
  lemma AcceptedUpdates(s: Shop, op: Op)
    requires WellFormed(s) && Accepts(s, op, Subject(op)) && Subject(op) in s.rows
    ensures var k := Subject(op);
            && k in Step(s, op).rows
            && Step(s, op).rows[k].info == Observed(s.rows[k].info, op.raw, op.now)
            && PricesOf(Step(s, op), k)
               == PricesOf(s, k) + OptSeq(OldPrice(s.rows[k].info, op.raw))
  {
    var p := InMemory(s, op.tenant, op.source, op.raw, op.now);
    SavedExisting(s, p, op.raw, op.now);
    SyncTouchesMarksOnly(Saved(s, p, op.raw), p, op.now, op.sync);
  }

  /** An accepted observation of a new product. */
  lemma AcceptedCreates(s: Shop, op: Op)
    requires WellFormed(s) && Accepts(s, op, Subject(op)) && Subject(op) !in s.rows
    ensures var k := Subject(op);
            && k in Step(s, op).rows
            && Step(s, op).rows[k].info == NewInfo(op.raw, op.now)
            && PricesOf(Step(s, op), k) == []
  {
    var p := InMemory(s, op.tenant, op.source, op.raw, op.now);
    RowAdded(s, Saved(s, p, op.raw), p);
    SyncTouchesMarksOnly(Saved(s, p, op.raw), p, op.now, op.sync);
  }

  /** Any operation that is not an accepted observation of k leaves k's fields and history alone. */
  lemma OthersKeepFields(s: Shop, op: Op, k: Key)
    requires WellFormed(s) && !Accepts(s, op, k)
    ensures k in Step(s, op).rows <==> k in s.rows
    ensures k in s.rows ==> Step(s, op).rows[k].info == s.rows[k].info
    ensures PricesOf(Step(s, op), k) == PricesOf(s, k)
  {
    if k != Subject(op) {
      StepElsewhere(s, op, k);
    } else if op.Observe? {
      if op.raw.title != "" {
        var p := InMemory(s, op.tenant, op.source, op.raw, op.now);
        SavedExisting(s, p, op.raw, op.now);
        SyncTouchesMarksOnly(Saved(s, p, op.raw), p, op.now, op.sync);
      }
    } else if op.SyncRow? && k in s.rows {
      SyncTouchesMarksOnly(s, s.rows[k], op.now, Some(op.weather));
    }
  }

  // ---------------------------------------------------------------- the fold

  /** The price part of the fold: what the trail of a product is after its accepted prices. */
  ghost predicate TrailIs(s: Shop, k: Key, prices: seq<int>) {
    Trail(s, k) == Dedup(prices)
  }

  lemma DedupOneMore(prices: seq<int>, price: int)
    ensures Dedup(prices + [price])
         == if prices == [] then [price]
            else Dedup(prices) + if price == prices[|prices| - 1] then [] else [price]
  {
    assert (prices + [price])[..|prices|] == prices;
  }

  lemma TrailGrows(before: seq<int>, current: Option<int>, prices: seq<int>, price: Option<int>)
    requires before + OptSeq(current) == Dedup(prices)
    requires current.None? <==> prices == []
    ensures var replaced := if price.Some? && current.Some? && current.value != price.value then [current.value]
                            else [];
            var next := if price.Some? then price else current;
            before + replaced + OptSeq(next) == Dedup(prices + OptSeq(price))
  {
    if price.None? {
      assert prices + [] == prices && before + [] == before;
    } else if current.None? {
      DedupOneMore(prices, price.value);
      assert before == [];
    } else {
      DedupOneMore(prices, price.value);
      DedupKeepsLast(prices);
      assert (before + [current.value])[|before|] == prices[|prices| - 1];
      assert before + [] == before;
    }
  }

  /** The three facts that a run keeps about one key. */
  ghost predicate KeyFolds(s: Shop, k: Key, raws: seq<Raw>) {
    && (k in s.rows <==> raws != [])
    && (k in s.rows ==>
          && IsFoldOf(s.rows[k].info, raws)
          && (s.rows[k].info.price.None? <==> PricesIn(raws) == [])
          && TrailIs(s, k, PricesIn(raws)))
  }

  lemma PricesGrow(raws: seq<Raw>, raw: Raw)
    ensures PricesIn(raws + [raw]) == PricesIn(raws) + OptSeq(raw.price)
  {
    assert (raws + [raw])[..|raws|] == raws;
  }

  /** The price of a stored product after an observation. */
  lemma ObservedPrice(p: Info, raw: Raw, now: Time)
    ensures Observed(p, raw, now).price == if raw.price.Some? then raw.price else p.price
  {
  }

  lemma UpdateTrail(s: Shop, op: Op, k: Key, prices: seq<int>)
    requires WellFormed(s) && Accepts(s, op, k) && k in s.rows
    requires TrailIs(s, k, prices) && (s.rows[k].info.price.None? <==> prices == [])
    ensures k in Step(s, op).rows && TrailIs(Step(s, op), k, prices + OptSeq(op.raw.price))
  {
    AcceptedUpdates(s, op);
    ObservedPrice(s.rows[k].info, op.raw, op.now);
    TrailGrows(PricesOf(s, k), s.rows[k].info.price, prices, op.raw.price);
  }

  lemma UpdateFolds(s: Shop, op: Op, k: Key, raws: seq<Raw>)
    requires WellFormed(s) && KeyFolds(s, k, raws) && Accepts(s, op, k) && k in s.rows
    ensures KeyFolds(Step(s, op), k, raws + [op.raw])
  {
    UpdateTrail(s, op, k, PricesIn(raws));
    AcceptedUpdates(s, op);
    FoldGrows(s.rows[k].info, raws, op.raw, op.now);
    ObservedPrice(s.rows[k].info, op.raw, op.now);
    PricesGrow(raws, op.raw);
  }

  lemma CreationFolds(s: Shop, op: Op, k: Key)
    requires WellFormed(s) && Accepts(s, op, k) && k !in s.rows
    ensures KeyFolds(Step(s, op), k, [op.raw])
  {
    AcceptedCreates(s, op);
    FoldStarts(op.raw, op.now);
    assert [] + [op.raw] == [op.raw];
    PricesGrow([], op.raw);
  }

  lemma StepFolds(s: Shop, op: Op, k: Key, raws: seq<Raw>)
    requires WellFormed(s) && KeyFolds(s, k, raws)
    ensures KeyFolds(Step(s, op), k, raws + if Accepts(s, op, k) then [op.raw] else [])
  {
    if !Accepts(s, op, k) {
      OthersKeepFields(s, op, k);
      assert raws + [] == raws;
    } else if k in s.rows {
      UpdateFolds(s, op, k, raws);
    } else {
      CreationFolds(s, op, k);
      assert raws + [op.raw] == [op.raw];
    }
  }

  /**
   Over every sequence of scrapes, syncs, blocks and hides from an empty store, whatever the network
   does: a row exists exactly when an observation of its key was accepted; its history followed by
   its current price is the sequence of accepted prices without consecutive repeats; and image,
   category, brand, description and url are the first non-empty values accepted.
   */
  lemma {:induction false} StoredProductIsFold(catalogue: Catalogue, ops: seq<Op>, k: Key)
    ensures var s := Run(EmptyShop(catalogue), ops);
            var raws := Accepted(EmptyShop(catalogue), ops, k);
            && (k in s.rows <==> raws != [])
            && (k in s.rows ==> IsFoldOf(s.rows[k].info, raws))
            && Trail(s, k) == Dedup(PricesIn(raws))
  {
    RunFolds(catalogue, ops, k);
  }

  lemma {:induction false} RunFolds(catalogue: Catalogue, ops: seq<Op>, k: Key)
    ensures KeyFolds(Run(EmptyShop(catalogue), ops), k, Accepted(EmptyShop(catalogue), ops, k))
  {
    if ops != [] {
      var front := ops[..|ops| - 1];
      RunFolds(catalogue, front, k);
      RunKeepsWellFormed(EmptyShop(catalogue), front);
      StepFolds(Run(EmptyShop(catalogue), front), ops[|ops| - 1], k, Accepted(EmptyShop(catalogue), front, k));
    }
  }

  // ---------------------------------------------------------------- the times of the fold

  /** What the accepted observations and their times say about the times of a product. */
  ghost predicate TimesFold(p: Info, raws: seq<Raw>, times: seq<Time>) {
    && |raws| == |times| > 0
    && p.firstSeenAt == times[0]
    && p.lastSeenAt == times[|times| - 1]
    && p.priceChangedAt == LastChange(raws, times)
    && p.inStock == (raws[0].inStock != Some(false))
    && p.price == if PricesIn(raws) == [] then None else Some(PricesIn(raws)[|PricesIn(raws)| - 1])
  }

  lemma TimesGrow(p: Info, raws: seq<Raw>, times: seq<Time>, raw: Raw, now: Time)
    requires TimesFold(p, raws, times)
    ensures TimesFold(Observed(p, raw, now), raws + [raw], times + [now])
  {
    assert (raws + [raw])[..|raws|] == raws && (times + [now])[..|times|] == times;
    PricesGrow(raws, raw);
  }

  lemma TimesStart(raw: Raw, now: Time)
    ensures TimesFold(NewInfo(raw, now), [raw], [now])
  {
    assert [raw][..0] == [] && PricesIn([raw]) == OptSeq(raw.price);
  }

  ghost predicate KeyTimes(s: Shop, k: Key, raws: seq<Raw>, times: seq<Time>) {
    && |raws| == |times|
    && (k in s.rows <==> raws != [])
    && (k in s.rows ==> TimesFold(s.rows[k].info, raws, times))
  }

  lemma StepTimes(s: Shop, op: Op, k: Key, raws: seq<Raw>, times: seq<Time>)
    requires WellFormed(s) && KeyTimes(s, k, raws, times)
    ensures KeyTimes(Step(s, op), k, raws + (if Accepts(s, op, k) then [op.raw] else []),
                     times + if Accepts(s, op, k) then [op.now] else [])
  {
    if !Accepts(s, op, k) {
      OthersKeepFields(s, op, k);
      assert raws + [] == raws && times + [] == times;
    } else if k in s.rows {
      AcceptedUpdates(s, op);
      TimesGrow(s.rows[k].info, raws, times, op.raw, op.now);
    } else {
      AcceptedCreates(s, op);
      TimesStart(op.raw, op.now);
      assert raws + [op.raw] == [op.raw] && times + [op.now] == [op.now];
    }
  }

  /**
   Over every such sequence a stored product was first seen when the first observation of its key was
   accepted, last seen when the last was, and changed its price when an accepted observation last
   reported another price than the one before; its price is the last one reported, and it is in stock
   unless the first observation said otherwise.
   */
  lemma {:induction false} StoredTimesAreFold(catalogue: Catalogue, ops: seq<Op>, k: Key)
    ensures var s := Run(EmptyShop(catalogue), ops);
            var raws, times := Accepted(EmptyShop(catalogue), ops, k), AcceptedAt(EmptyShop(catalogue), ops, k);
            && |raws| == |times|
            && (k in s.rows <==> raws != [])
            && (k in s.rows ==>
                  var p := s.rows[k].info;
                  && p.firstSeenAt == times[0] && p.lastSeenAt == times[|times| - 1]
                  && p.priceChangedAt == LastChange(raws, times)
                  && p.price == (if PricesIn(raws) == [] then None else Some(PricesIn(raws)[|PricesIn(raws)| - 1]))
                  && p.inStock == (raws[0].inStock != Some(false)))
  {
    RunTimes(catalogue, ops, k);
  }

  lemma {:induction false} RunTimes(catalogue: Catalogue, ops: seq<Op>, k: Key)
    ensures var s := EmptyShop(catalogue);
            KeyTimes(Run(s, ops), k, Accepted(s, ops, k), AcceptedAt(s, ops, k))
  {
    if ops != [] {
      var front := ops[..|ops| - 1];
      var s := EmptyShop(catalogue);
      RunTimes(catalogue, front, k);
      RunKeepsWellFormed(s, front);
      StepTimes(Run(s, front), ops[|ops| - 1], k, Accepted(s, front, k), AcceptedAt(s, front, k));
    }
  }
}
