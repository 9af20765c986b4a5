/** What a sync makes of the catalogue, in terms of the fields of products and entries alone. */
module Namesakes {
  import opened Prelude
  import opened Text
  import opened Products
  import opened Catalogues
  import opened Shops
  import opened PriceTrails
  import Ean

  /** The entry has the product's name, up to case and surrounding spaces, and its brand, if it has one. */
  predicate IsNamesake(e: Entry, p: Product) {
    EqualUpToCase(TrimSpace(e.name), TrimSpace(p.info.title)) && (p.info.brand == "" || e.brand == p.info.brand)
  }

  /** The names of the catalogue and of the product are Latin. */
  predicate AreLatin(c: Catalogue, p: Product) {
    IsLatin(TrimSpace(p.info.title)) && forall i :: 0 <= i < |c| ==> IsLatin(TrimSpace(c[i].name))
  }

  lemma NamesakeMatches(e: Entry, p: Product)
    ensures IsNamesake(e, p) ==> NameMatches(e, p.info.title, p.info.brand)
    ensures IsLatin(TrimSpace(p.info.title)) && IsLatin(TrimSpace(e.name)) && NameMatches(e, p.info.title, p.info.brand)
            ==> IsNamesake(e, p)
  {
    SameNameIffEqualUpToCase(e.name, p.info.title);
  }

  /** An answered search finds a namesake whenever there is one, and among Latin names nothing else. */
  lemma NameSearchFindsNamesakes(c: Catalogue, p: Product)
    ensures var found := Search(NameIndex(c, p.info.title, p.info.brand, 0), Answered);
            && found.Ok?
            && ((exists k :: 0 <= k < |c| && IsNamesake(c[k], p)) ==> found.value.Some?)
            && (AreLatin(c, p) && found.value.Some? ==>
                  found.value.value < |c| && IsNamesake(c[found.value.value], p)
                  && forall k :: 0 <= k < found.value.value ==> !IsNamesake(c[k], p))
  {
    NameIndexFinds(c, p.info.title, p.info.brand, 0);
    forall k | 0 <= k < |c|
      ensures IsNamesake(c[k], p) ==> NameMatches(c[k], p.info.title, p.info.brand)
      ensures AreLatin(c, p) && NameMatches(c[k], p.info.title, p.info.brand) ==> IsNamesake(c[k], p)
    {
      NamesakeMatches(c[k], p);
    }
  }

  /** A sync adds no second entry beside a namesake, as long as its name search is not misread. */
  lemma NamesakeIsNotDuplicated(c: Catalogue, p: Product, w: Weather, k: nat)
    requires k < |c| && IsNamesake(c[k], p) && w.nameSearch != BadStatus
    ensures |Sync(c, p, w).catalogue| == |c|
  {
    NamesakeMatches(c[k], p);
    FindExistingFinds(c, p, w);
    NameIndexFinds(c, p.info.title, p.info.brand, 0);
  }

  /** Priced, pictured, categorised, visible, not blocked and not yet synced. */
  predicate IsSendable(p: Product) {
    && p.info.price.Some? && p.info.image != "" && p.info.category != ""
    && p.hiddenAt.None? && !p.blocked && p.syncedAt.None?
  }

  /** The entry has the product's valid code. */
  predicate HasItsCode(e: Entry, p: Product) {
    Ean.IsEan13(TrimSpace(p.info.ean)) && e.ean == p.info.ean
  }

  /** The entry that a sync of the product updates: the first with its code, or if none has it the first namesake. */
  ghost predicate IsToUpdate(c: Catalogue, i: int, p: Product) {
    && 0 <= i < |c|
    && if exists k :: 0 <= k < |c| && HasItsCode(c[k], p) then
         HasItsCode(c[i], p) && forall k :: 0 <= k < i ==> !HasItsCode(c[k], p)
       else
         IsNamesake(c[i], p) && forall k :: 0 <= k < i ==> !IsNamesake(c[k], p)
  }

  lemma FairFindIsToUpdate(c: Catalogue, p: Product)
    requires AreLatin(c, p)
    ensures var found := FindExisting(c, p, FAIR);
            found.Ok? && (found.value.Some? ==> IsToUpdate(c, found.value.value, p))
  {
    EanIndexFinds(c, p.info.ean, 0);
    NameSearchFindsNamesakes(c, p);
  }

  /**
   Among Latin names, a sync in fair weather leaves the catalogue alone if the product is not sendable; if
   the catalogue has an entry with its code or name, it gives the first of them the product's price and image
   and changes nothing else; otherwise it adds an entry that shows the product.
   */
  lemma FairSyncShowsProduct(c: Catalogue, p: Product)
    requires AreLatin(c, p)
    ensures var r := Sync(c, p, FAIR);
            && r.error.None? && (r.marked <==> IsSendable(p))
            && if !IsSendable(p) then r.catalogue == c
               else if exists k :: 0 <= k < |c| && (HasItsCode(c[k], p) || IsNamesake(c[k], p)) then
                 exists i :: IsToUpdate(c, i, p)
                             && r.catalogue == c[i := c[i].(price := p.info.price, image := p.info.image)]
               else
                 var code := if Ean.IsEan13(TrimSpace(p.info.ean)) then TrimSpace(p.info.ean) else "";
                 var entry := Entry(code, p.info.title, p.info.brand, p.info.category, p.info.price, p.info.image,
                                    p.info.url);
                 r.catalogue == c + [entry]
  {
    FindExistingFinds(c, p, FAIR);
    FairFindIsToUpdate(c, p);
    forall k | 0 <= k < |c|
      ensures IsNamesake(c[k], p) <==> NameMatches(c[k], p.info.title, p.info.brand)
    {
      NamesakeMatches(c[k], p);
    }
  }

  /** Two entries of one brand whose names are equal up to case are one name too many. */
  lemma UniqueNamesMeans(c: Catalogue)
    ensures UniqueNames(c) ==>
              forall i, j :: 0 <= i < j < |c| && c[i].brand == c[j].brand ==>
                               !EqualUpToCase(TrimSpace(c[i].name), TrimSpace(c[j].name))
    ensures (forall i :: 0 <= i < |c| ==> IsLatin(TrimSpace(c[i].name)))
            && (forall i, j :: 0 <= i < j < |c| && c[i].brand == c[j].brand ==>
                                 !EqualUpToCase(TrimSpace(c[i].name), TrimSpace(c[j].name)))
            ==> UniqueNames(c)
  {
    forall i, j | 0 <= i < j < |c|
      ensures var a, b := c[i].name, c[j].name;
              && (EqualUpToCase(TrimSpace(a), TrimSpace(b)) ==> FoldedName(a) == FoldedName(b))
              && (IsLatin(TrimSpace(a)) && IsLatin(TrimSpace(b)) && FoldedName(a) == FoldedName(b) ==>
                    EqualUpToCase(TrimSpace(a), TrimSpace(b)))
    {
      SameNameIffEqualUpToCase(c[i].name, c[j].name);
    }
  }

  /** The searches of a sync fail: that for a valid code, or that for the name, when no entry has the code. */
  ghost predicate SearchesFail(c: Catalogue, p: Product, w: Weather) {
    var byCode := Ean.IsEan13(TrimSpace(p.info.ean));
    || (byCode && w.eanSearch == NoReply)
    || (w.nameSearch == NoReply
        && !(byCode && w.eanSearch == Answered && exists k :: 0 <= k < |c| && HasItsCode(c[k], p)))
  }

  /**
   A sync in any weather: it errs exactly when a search fails or the write is not confirmed, marks exactly
   when it does not err and the mark is stored, and writes exactly when no search fails and the write takes
   effect, whether or not that is confirmed; what it writes depends on the searches alone.
   */
  lemma SyncInAnyWeather(c: Catalogue, p: Product, w: Weather)
    ensures var r := Sync(c, p, w);
            && (r.error == Some(SearchFailed) <==> IsSendable(p) && SearchesFail(c, p, w))
            && (r.error == Some(WriteFailed) <==> IsSendable(p) && !SearchesFail(c, p, w) && w.write != Applied)
            && (r.marked <==> IsSendable(p) && r.error.None? && w.markStored)
            && (!IsSendable(p) || SearchesFail(c, p, w) || w.write == NotApplied ==> r.catalogue == c)
            && (w.write != NotApplied ==> r.catalogue == Sync(c, p, w.(write := Applied)).catalogue)
            && (w.eanSearch == w.nameSearch == Answered && w.write != NotApplied ==>
                  r.catalogue == Sync(c, p, FAIR).catalogue)
  {
    FindExistingFinds(c, p, w);
    EanIndexFinds(c, p.info.ean, 0);
  }

  // ---------------------------------------------------------------- an observation and its sync

  /**
   An accepted observation that is synced in fair weather leaves a visible and unblocked row, which keeps
   its mark, or is marked now if it has price, image and category; and the catalogue is synced with it.
   */
  lemma FairObservationIsSynced(s: Shop, op: Op)
    requires WellFormed(s) && Accepts(s, op, Subject(op)) && op.sync == Some(FAIR)
    ensures var k, t := Subject(op), Step(s, op);
            var before := if k in s.rows then s.rows[k].syncedAt else None;
            && k in t.rows
            && var row := t.rows[k];
            && row.key == k && row.id == (if k in s.rows then s.rows[k].id else s.nextId)
            && !row.blocked && row.hiddenAt.None?
            && row.syncedAt == (if before.Some? then before
                                else if row.info.price.Some? && row.info.image != "" && row.info.category != ""
                                then Some(op.now) else None)
            && t.catalogue == Sync(s.catalogue, row.(syncedAt := before), FAIR).catalogue
  {
    var p := InMemory(s, op.tenant, op.source, op.raw, op.now);
    if p.key in s.rows {
      SavedExisting(s, p, op.raw, op.now);
    }
    assert Saved(s, p, op.raw).rows[p.key] == p && Saved(s, p, op.raw).catalogue == s.catalogue;
    FindExistingFinds(s.catalogue, p, FAIR);
  }
}
