/** A scrape's batch of observations: its counts, and what running it again does. */
module UpsertBatches {
  import opened Prelude
  import opened RawProducts
  import opened Products
  import opened Catalogues
  import opened Shops
  import opened PriceTrails

  /** The operations of a batch; weather(i) is what the network does during the i-th, if syncing is on. */
  function BatchOps(tenant: Uuid, source: Uuid, raws: seq<Raw>, now: Time, weather: nat -> Option<Weather>): seq<Op> {
    seq(|raws|, i requires 0 <= i < |raws| => Observe(tenant, source, raws[i], now, weather(i)))
  }

  predicate AllObserve(ops: seq<Op>) {
    forall i :: 0 <= i < |ops| ==> ops[i].Observe?
  }

  /** How many observations of a run ended with a verdict. */
  function Count(s: Shop, ops: seq<Op>, v: Verdict): nat {
    if ops == [] then 0
    else
      var front, last := ops[..|ops| - 1], ops[|ops| - 1];
      Count(s, front, v) +
      if last.Observe? && VerdictOn(Run(s, front).rows, Subject(last), last.raw) == v then 1 else 0
  }

  function Titled(ops: seq<Op>): nat {
    if ops == [] then 0
    else Titled(ops[..|ops| - 1]) + if ops[|ops| - 1].Observe? && ops[|ops| - 1].raw.title != "" then 1 else 0
  }

  lemma ObserveAddsKey(s: Shop, op: Op)
    requires WellFormed(s) && op.Observe?
    ensures Step(s, op).rows.Keys == if op.raw.title == "" then s.rows.Keys else s.rows.Keys + {Subject(op)}
  {
    if op.raw.title != "" {
      var p := InMemory(s, op.tenant, op.source, op.raw, op.now);
      if p.key in s.rows {
        SavedExisting(s, p, op.raw, op.now);
      } else {
        RowAdded(s, Saved(s, p, op.raw), p);
      }
      SyncTouchesMarksOnly(Saved(s, p, op.raw), p, op.now, op.sync);
    }
  }

  lemma OneMoreRow(before: map<Key, Product>, after: map<Key, Product>, key: Key)
    requires after.Keys == before.Keys + {key}
    ensures |after| == |before| + if key in before then 0 else 1
  {
    assert |after| == |after.Keys| && |before| == |before.Keys|;
    if key in before {
      assert after.Keys == before.Keys;
    } else {
      UnionSize(before.Keys, {key});
    }
  }

  lemma SameRows(before: map<Key, Product>, after: map<Key, Product>)
    requires after.Keys == before.Keys
    ensures |after| == |before|
  {
    assert |after| == |after.Keys| && |before| == |before.Keys|;
  }

  lemma ObservedKeys(s: Shop, op: Op, t: Shop)
    requires WellFormed(s) && op.Observe? && t == Step(s, op)
    ensures s.rows.Keys <= t.rows.Keys
    ensures op.raw.title != "" ==> Subject(op) in t.rows
    ensures |t.rows| == |s.rows| + if VerdictOn(s.rows, Subject(op), op.raw) == Created then 1 else 0
    ensures Subject(op) in s.rows || op.raw.title == "" ==>
              t.rows.Keys == s.rows.Keys && VerdictOn(s.rows, Subject(op), op.raw) != Created
  {
    ObserveAddsKey(s, op);
    if op.raw.title == "" {
      SameRows(s.rows, t.rows);
    } else {
      OneMoreRow(s.rows, t.rows, Subject(op));
    }
  }

  /**
   Created is the growth of the table, and every titled observation is counted as created, counted
   as updated, or refused by a frozen row.
   */
  lemma {:induction false} CountsAddUp(s: Shop, ops: seq<Op>)
    requires WellFormed(s) && AllObserve(ops)
    ensures Count(s, ops, Created) == |Run(s, ops).rows| - |s.rows|
    ensures Count(s, ops, Created) + Count(s, ops, Updated) + Count(s, ops, Refused) == Titled(ops)
  {
    if ops != [] {
      var front := ops[..|ops| - 1];
      CountsAddUp(s, front);
      RunKeepsWellFormed(s, front);
      ObservedKeys(Run(s, front), ops[|ops| - 1], Run(s, ops));
    }
  }

  ghost predicate NoneFrozen(s: Shop) {
    forall k :: k in s.rows ==> !s.rows[k].blocked && s.rows[k].hiddenAt.None?
  }

  lemma ObserveFreezesNothing(s: Shop, op: Op)
    requires WellFormed(s) && NoneFrozen(s) && op.Observe?
    ensures NoneFrozen(Step(s, op))
  {
    if op.raw.title != "" {
      var p := InMemory(s, op.tenant, op.source, op.raw, op.now);
      if p.key in s.rows {
        SavedExisting(s, p, op.raw, op.now);
      } else {
        RowAdded(s, Saved(s, p, op.raw), p);
      }
      SyncTouchesMarksOnly(Saved(s, p, op.raw), p, op.now, op.sync);
      forall k | k in Step(s, op).rows
        ensures !Frozen(Step(s, op).rows[k])
      {
        if k != Subject(op) {
          StepElsewhere(s, op, k);
        }
      }
    }
  }

  /** Without frozen rows every titled observation is accepted and counted. */
  lemma {:induction false} NoneRefused(s: Shop, ops: seq<Op>)
    requires WellFormed(s) && NoneFrozen(s) && AllObserve(ops)
    ensures NoneFrozen(Run(s, ops)) && Count(s, ops, Refused) == 0
    ensures Count(s, ops, Created) + Count(s, ops, Updated) == Titled(ops)
  {
    CountsAddUp(s, ops);
    if ops != [] {
      var front := ops[..|ops| - 1];
      NoneRefused(s, front);
      RunKeepsWellFormed(s, front);
      ObserveFreezesNothing(Run(s, front), ops[|ops| - 1]);
    }
  }

  // ---------------------------------------------------------------- running a batch again

  /** The observations of a batch that are about key k. */
  function Matching(ops: seq<Op>, k: Key): seq<Raw> {
    if ops == [] then []
    else
      var last := ops[|ops| - 1];
      Matching(ops[..|ops| - 1], k) + if last.Observe? && last.raw.title != "" && Subject(last) == k then [last.raw]
      else []
  }

  /** All prices that a batch reports for key k are equal. */
  predicate OnePrice(ops: seq<Op>, k: Key) {
    var prices := PricesIn(Matching(ops, k));
    forall i, j :: 0 <= i < j < |prices| ==> prices[i] == prices[j]
  }

  lemma {:induction false} RunInTwo(s: Shop, first: seq<Op>, second: seq<Op>)
    ensures Run(s, first + second) == Run(Run(s, first), second)
  {
    if second == [] {
      assert first + second == first;
    } else {
      ConcatLast(first, second);
      RunInTwo(s, first, second[..|second| - 1]);
    }
  }

  lemma AcceptsUnfrozen(s: Shop, op: Op, k: Key)
    requires NoneFrozen(s) && op.Observe?
    ensures Accepts(s, op, k) <==> op.raw.title != "" && Subject(op) == k
  {
  }

  lemma AcceptedSnoc(s: Shop, ops: seq<Op>, op: Op, k: Key)
    ensures Accepted(s, ops + [op], k) == Accepted(s, ops, k) + if Accepts(Run(s, ops), op, k) then [op.raw] else []
  {
    assert (ops + [op])[..|ops|] == ops;
  }

  lemma NoneFrozenAfter(s: Shop, first: seq<Op>, batch: seq<Op>)
    requires WellFormed(s) && AllObserve(batch) && NoneFrozen(Run(s, first))
    ensures NoneFrozen(Run(s, first + batch))
  {
    RunInTwo(s, first, batch);
    RunKeepsWellFormed(s, first);
    NoneRefused(Run(s, first), batch);
  }

  /** Without frozen rows a batch's accepted observations are all of its observations. */
  lemma {:induction false} AcceptedAfter(s: Shop, first: seq<Op>, batch: seq<Op>, k: Key)
    requires WellFormed(s) && AllObserve(batch) && NoneFrozen(Run(s, first))
    ensures Accepted(s, first + batch, k) == Accepted(s, first, k) + Matching(batch, k)
    decreases |batch|
  {
    if batch == [] {
      assert first + batch == first && Accepted(s, first, k) + [] == Accepted(s, first, k);
    } else {
      var front, last := batch[..|batch| - 1], batch[|batch| - 1];
      assert first + batch == first + front + [last];
      AcceptedAfter(s, first, front, k);
      NoneFrozenAfter(s, first, front);
      AcceptedSnoc(s, first + front, last, k);
      AcceptsUnfrozen(Run(s, first + front), last, k);
    }
  }

  lemma {:induction false} PricesInConcat(a: seq<Raw>, b: seq<Raw>)
    ensures PricesIn(a + b) == PricesIn(a) + PricesIn(b)
  {
    if b == [] {
      assert a + b == a && PricesIn(a) + [] == PricesIn(a);
    } else {
      var n := |a + b| - 1;
      assert (a + b)[..n] == a + b[..|b| - 1];
      PricesInConcat(a, b[..|b| - 1]);
    }
  }

  /** Adding prices leaves a deduplicated list as it was exactly when they all equal its last price. */
  lemma {:induction false} DedupAbsorbs(prices: seq<int>, more: seq<int>)
    requires prices != []
    ensures |Dedup(prices + more)| >= |Dedup(prices)|
    ensures Dedup(prices + more) == Dedup(prices) <==> forall i :: 0 <= i < |more| ==> more[i] == prices[|prices| - 1]
    decreases |more|
  {
    if more == [] {
      assert prices + more == prices;
    } else {
      var longer := prices + [more[0]];
      assert longer + more[1..] == prices + more && longer[..|prices|] == prices;
      DedupAbsorbs(longer, more[1..]);
      if more[0] == prices[|prices| - 1] {
        assert forall i :: 1 <= i < |more| ==> more[i] == more[1..][i - 1];
      } else {
        assert |Dedup(longer)| == |Dedup(prices)| + 1;
      }
    }
  }

  /**
   Running a batch a second time, without frozen rows: it creates nothing, and it adds nothing to a
   product's price history if and only if the batch reports one price for that product.
   */
  lemma RerunAddsNothingIffOnePrice(catalogue: Catalogue, earlier: seq<Op>, batch: seq<Op>, again: seq<Op>, k: Key)
    requires NoneFrozen(Run(EmptyShop(catalogue), earlier)) && AllObserve(batch) && AllObserve(again)
    requires |batch| == |again|
    requires forall i :: 0 <= i < |batch| ==> again[i].raw == batch[i].raw && Subject(again[i]) == Subject(batch[i])
    ensures var s1 := Run(EmptyShop(catalogue), earlier + batch);
            var s2 := Run(s1, again);
            && Count(s1, again, Created) == 0
            && (PricesOf(s2, k) == PricesOf(s1, k) <==> OnePrice(batch, k))
  {
    var s0 := EmptyShop(catalogue);
    RunInTwo(s0, earlier, batch);
    RunKeepsWellFormed(s0, earlier);
    NoneRefused(Run(s0, earlier), batch);
    RunKeepsWellFormed(s0, earlier + batch);
    RerunCreatesNothing(Run(s0, earlier), batch, again);
    RunInTwo(s0, earlier + batch, again);
    AcceptedAfter(s0, earlier, batch, k);
    AcceptedAfter(s0, earlier + batch, again, k);
    SameMatching(batch, again, k);
    var all := Accepted(s0, earlier + batch, k);
    PricesInConcat(Accepted(s0, earlier, k), Matching(batch, k));
    PricesInConcat(all, Matching(again, k));
    RunFolds(catalogue, earlier + batch, k);
    RunFolds(catalogue, earlier + batch + again, k);
    SameHistory(Run(s0, earlier + batch), Run(s0, earlier + batch + again), k, PricesIn(Accepted(s0, earlier, k)),
                PricesIn(Matching(batch, k)));
  }

  /** A product that is observed at two prices in one batch. */
  const TWO_PRICED := Raw("t", Some(1), "u", "", "", "", "", "", "", None)

  function TwoPrices(tenant: Uuid, source: Uuid, now: Time): seq<Op> {
    [Observe(tenant, source, TWO_PRICED, now, None), Observe(tenant, source, TWO_PRICED.(price := Some(2)), now, None)]
  }

  lemma TwoPricesMatch(tenant: Uuid, source: Uuid, now: Time)
    ensures var ops := TwoPrices(tenant, source, now);
            var k := KeyOf(tenant, source, TWO_PRICED);
            Matching(ops, k) == [TWO_PRICED, TWO_PRICED.(price := Some(2))] && !OnePrice(ops, k)
  {
    var ops := TwoPrices(tenant, source, now);
    var k := KeyOf(tenant, source, TWO_PRICED);
    assert ops[..1] == [ops[0]] && ops[..1][..0] == [];
    assert Matching(ops[..1], k) == [TWO_PRICED];
    var raws := Matching(ops, k);
    assert raws[..1] == [TWO_PRICED] && raws[..1][..0] == [];
    assert PricesIn(raws[..1]) == [1];
    assert PricesIn(raws) == [1, 2];
    assert PricesIn(raws)[0] != PricesIn(raws)[1];
  }

  /** Such a batch, run twice on an empty store, does add to the product's history the second time. */
  lemma RerunAddsHistory(catalogue: Catalogue, tenant: Uuid, source: Uuid, now: Time)
    ensures var ops := TwoPrices(tenant, source, now);
            var once := Run(EmptyShop(catalogue), ops);
            var k := KeyOf(tenant, source, TWO_PRICED);
            PricesOf(Run(once, ops), k) != PricesOf(once, k)
  {
    var ops := TwoPrices(tenant, source, now);
    TwoPricesMatch(tenant, source, now);
    assert [] + ops == ops;
    RerunAddsNothingIffOnePrice(catalogue, [], ops, ops, KeyOf(tenant, source, TWO_PRICED));
  }

  lemma {:induction false} SameMatching(batch: seq<Op>, again: seq<Op>, k: Key)
    requires |batch| == |again| && AllObserve(batch) && AllObserve(again)
    requires forall i :: 0 <= i < |batch| ==> again[i].raw == batch[i].raw && Subject(again[i]) == Subject(batch[i])
    ensures Matching(batch, k) == Matching(again, k)
  {
    if batch != [] {
      SameMatching(batch[..|batch| - 1], again[..|again| - 1], k);
    }
  }

  /** Keys present after a batch are created by no later run of it. */
  lemma RerunCreatesNothing(s: Shop, batch: seq<Op>, again: seq<Op>)
    requires WellFormed(s) && AllObserve(batch) && AllObserve(again) && |batch| == |again|
    requires forall i :: 0 <= i < |batch| ==> again[i].raw == batch[i].raw && Subject(again[i]) == Subject(batch[i])
    ensures Count(Run(s, batch), again, Created) == 0
  {
    forall i | 0 <= i < |again| && again[i].raw.title != ""
      ensures Subject(again[i]) in Run(s, batch).rows
    {
      SeenKeysStay(s, batch, i);
    }
    RunKeepsWellFormed(s, batch);
    KnownKeysCreateNothing(Run(s, batch), again);
  }

  lemma {:induction false} SeenKeysStay(s: Shop, ops: seq<Op>, i: nat)
    requires WellFormed(s) && AllObserve(ops) && i < |ops| && ops[i].raw.title != ""
    ensures Subject(ops[i]) in Run(s, ops).rows
  {
    var front := ops[..|ops| - 1];
    RunKeepsWellFormed(s, front);
    ObservedKeys(Run(s, front), ops[|ops| - 1], Run(s, ops));
    if i < |ops| - 1 {
      SeenKeysStay(s, front, i);
    }
  }

  lemma {:induction false} KnownKeysCreateNothing(s: Shop, ops: seq<Op>)
    requires WellFormed(s) && AllObserve(ops)
    requires forall i :: 0 <= i < |ops| && ops[i].raw.title != "" ==> Subject(ops[i]) in s.rows
    ensures Run(s, ops).rows.Keys == s.rows.Keys && Count(s, ops, Created) == 0
  {
    if ops != [] {
      var front := ops[..|ops| - 1];
      KnownKeysCreateNothing(s, front);
      RunKeepsWellFormed(s, front);
      ObservedKeys(Run(s, front), ops[|ops| - 1], Run(s, ops));
    }
  }

  /** Two states whose trails are those of prices p + q and p + q + q have the same history iff q is constant. */
  lemma SameHistory(s1: Shop, s2: Shop, k: Key, p: seq<int>, q: seq<int>)
    requires TrailAndPrice(s1, k, p + q) && TrailAndPrice(s2, k, p + q + q)
    ensures PricesOf(s2, k) == PricesOf(s1, k) <==> forall i, j :: 0 <= i < j < |q| ==> q[i] == q[j]
  {
    TrailSplits(s1, k, p + q);
    TrailSplits(s2, k, p + q + q);
    if q == [] {
      assert p + q + q == p + q;
    } else {
      SameFronts(p, q);
    }
  }

  function Front(s: seq<int>): seq<int>
    requires s != []
  {
    s[..|s| - 1]
  }

  lemma SameFronts(p: seq<int>, q: seq<int>)
    requires q != []
    ensures Dedup(p + q) != [] && Dedup(p + q + q) != []
    ensures Front(Dedup(p + q + q)) == Front(Dedup(p + q)) <==> forall i, j :: 0 <= i < j < |q| ==> q[i] == q[j]
  {
    DedupAbsorbs(p + q, q);
    DedupKeepsLast(p + q);
    DedupKeepsLast(p + q + q);
    SameFront(Dedup(p + q), Dedup(p + q + q));
    ConstantIffLast(q);
  }

  lemma SameFront(a: seq<int>, b: seq<int>)
    requires a != [] && b != [] && a[|a| - 1] == b[|b| - 1]
    ensures a == b <==> Front(a) == Front(b)
  {
    assert a == Front(a) + [a[|a| - 1]];
    assert b == Front(b) + [b[|b| - 1]];
  }

  lemma ConstantIffLast(q: seq<int>)
    requires q != []
    ensures (forall i, j :: 0 <= i < j < |q| ==> q[i] == q[j]) <==> (forall i :: 0 <= i < |q| ==> q[i] == q[|q| - 1])
  {
  }

  ghost predicate TrailAndPrice(s: Shop, k: Key, prices: seq<int>) {
    && Trail(s, k) == Dedup(prices)
    && (k in s.rows ==> (s.rows[k].info.price.None? <==> prices == []))
    && (k !in s.rows ==> prices == [])
  }

  /** The history is the trail without its last price. */
  lemma TrailSplits(s: Shop, k: Key, prices: seq<int>)
    requires TrailAndPrice(s, k, prices)
    ensures if prices == [] then PricesOf(s, k) == []
            else Dedup(prices) != [] && PricesOf(s, k) == Front(Dedup(prices))
  {
    if prices != [] {
      DedupKeepsLast(prices);
    }
  }
}
