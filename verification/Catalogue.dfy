/**
 Syncing one product into the shared catalogue (PIM): search, then update the entry that was found or
 create one, then mark the product. Network outcomes are part of the input.
 */
module Catalogues {
  import opened Prelude
  import opened Text
  import opened Products
  import Ean

  /** An entry of the catalogue; its position is its identity. */
  datatype Entry = Entry(
    ean: string,
    name: string,
    brand: string,
    category: string,
    price: Option<int>,
    image: string,
    url: string
  )

  type Catalogue = seq<Entry>

  /**
   A search is answered; or its answer is read as "not found" although it may not be, because its
   status is not 200 or its ten results leave the match out; or it errs.
   */
  datatype Reply = Answered | BadStatus | NoReply

  /** A write takes effect, takes effect but its reply is lost, or does not take effect. */
  datatype WriteReply = Applied | ReplyLost | NotApplied

  /** What the network does during one sync. */
  datatype Weather = Weather(eanSearch: Reply, nameSearch: Reply, write: WriteReply, markStored: bool)

  const FAIR := Weather(Answered, Answered, Applied, true)

  datatype SyncError = SearchFailed | WriteFailed

  /** The catalogue after a sync; whether the product is marked in the store; and the call's result. */
  datatype SyncResult = SyncResult(catalogue: Catalogue, marked: bool, error: Option<SyncError>)

  /** The first entry from position i on with that EAN. */
  function EanIndex(c: Catalogue, ean: string, i: nat): Option<nat>
    requires i <= |c|
    decreases |c| - i
  {
    if i == |c| then None else if c[i].ean == ean then Some(i) else EanIndex(c, ean, i + 1)
  }

  /** Same name up to case and surrounding spaces, and the brand asked for, if one is asked for. */
  predicate NameMatches(e: Entry, name: string, brand: string) {
    FoldedName(e.name) == FoldedName(name) && (brand == "" || e.brand == brand)
  }

  function NameIndex(c: Catalogue, name: string, brand: string, i: nat): Option<nat>
    requires i <= |c|
    decreases |c| - i
  {
    if i == |c| then None else if NameMatches(c[i], name, brand) then Some(i) else NameIndex(c, name, brand, i + 1)
  }

  /** An exact search: what the server finds, if it answers. */
  function Search(found: Option<nat>, reply: Reply): Result<Option<nat>, SyncError> {
    match reply
    case Answered => Ok(found)
    case BadStatus => Ok(None)
    case NoReply => Err(SearchFailed)
  }

  /** By EAN when the product has a valid one, and by name and brand when that finds nothing. */
  function FindExisting(c: Catalogue, p: Product, w: Weather): Result<Option<nat>, SyncError> {
    var byEan := if Ean.IsEan13(TrimSpace(p.info.ean)) then Search(EanIndex(c, p.info.ean, 0), w.eanSearch)
                 else Ok(None);
    match byEan
    case Err(e) => Err(e)
    case Ok(Some(i)) => Ok(Some(i))
    case Ok(None) => Search(NameIndex(c, p.info.title, p.info.brand, 0), w.nameSearch)
  }

  function NewEntry(p: Product): Entry {
    Entry(Ean.NormalizeForSync(p.info.ean), p.info.title, p.info.brand, p.info.category, p.info.price, p.info.image,
          p.info.url)
  }

  /** A PATCH leaves out an absent price and an empty image. */
  function Patched(e: Entry, p: Product): Entry {
    e.(price := if p.info.price.Some? then p.info.price else e.price, image := if p.info.image != "" then p.info.image
    else e.image)
  }

  function Write(before: Catalogue, after: Catalogue, w: Weather): SyncResult {
    match w.write
    case Applied => SyncResult(after, w.markStored, None)
    case ReplyLost => SyncResult(after, false, Some(WriteFailed))
    case NotApplied => SyncResult(before, false, Some(WriteFailed))
  }

  /** One call of Execute for an in-memory product. */
  function Sync(c: Catalogue, p: Product, w: Weather): SyncResult {
    if !NeedsSync(p) then SyncResult(c, false, None)
    else
      match FindExisting(c, p, w)
      case Err(e) => SyncResult(c, false, Some(e))
      case Ok(Some(i)) => if i < |c| then Write(c, c[i := Patched(c[i], p)], w) else SyncResult(c, false, None)
      case Ok(None) => Write(c, c + [NewEntry(p)], w)
  }

  // ---------------------------------------------------------------- the searches

  lemma {:induction false} EanIndexFinds(c: Catalogue, ean: string, i: nat)
    requires i <= |c|
    ensures EanIndex(c, ean, i).None? <==> forall k :: i <= k < |c| ==> c[k].ean != ean
    ensures EanIndex(c, ean, i).Some? ==>
              i <= EanIndex(c, ean, i).value < |c| && c[EanIndex(c, ean, i).value].ean == ean
    ensures EanIndex(c, ean, i).Some? ==> forall k :: i <= k < EanIndex(c, ean, i).value ==> c[k].ean != ean
    decreases |c| - i
  {
    if i < |c| {
      EanIndexFinds(c, ean, i + 1);
    }
  }

  lemma {:induction false} NameIndexFinds(c: Catalogue, name: string, brand: string, i: nat)
    requires i <= |c|
    ensures NameIndex(c, name, brand, i).None? <==> forall k :: i <= k < |c| ==> !NameMatches(c[k], name, brand)
    ensures NameIndex(c, name, brand, i).Some? ==>
              i <= NameIndex(c, name, brand, i).value < |c|
              && NameMatches(c[NameIndex(c, name, brand, i).value], name, brand)
    ensures NameIndex(c, name, brand, i).Some? ==>
              forall k :: i <= k < NameIndex(c, name, brand, i).value ==> !NameMatches(c[k], name, brand)
    decreases |c| - i
  {
    if i < |c| {
      NameIndexFinds(c, name, brand, i + 1);
    }
  }

  /** A search that both servers answer finds an entry exactly when there is one to find. */
  lemma FindExistingFinds(c: Catalogue, p: Product, w: Weather)
    ensures FindExisting(c, p, w).Ok? && FindExisting(c, p, w).value.Some? ==>
              var i := FindExisting(c, p, w).value.value;
              && i < |c|
              && ((Ean.IsEan13(TrimSpace(p.info.ean)) && c[i].ean == p.info.ean)
                  || NameMatches(c[i], p.info.title, p.info.brand))
    ensures w.eanSearch == Answered && FindExisting(c, p, w) == Ok(None) && Ean.IsEan13(TrimSpace(p.info.ean)) ==>
              forall k :: 0 <= k < |c| ==> c[k].ean != p.info.ean
    ensures w.nameSearch == Answered && FindExisting(c, p, w) == Ok(None) ==>
              forall k :: 0 <= k < |c| ==> !NameMatches(c[k], p.info.title, p.info.brand)
    ensures w.eanSearch != NoReply && w.nameSearch != NoReply ==> FindExisting(c, p, w).Ok?
    ensures FindExisting(c, p, w) == Ok(None) ==>
              w.nameSearch != NoReply && (Ean.IsEan13(TrimSpace(p.info.ean)) ==> w.eanSearch != NoReply)
  {
    EanIndexFinds(c, p.info.ean, 0);
    NameIndexFinds(c, p.info.title, p.info.brand, 0);
  }

  // ---------------------------------------------------------------- uniqueness

  /** No two entries share a non-empty EAN. */
  ghost predicate UniqueEans(c: Catalogue) {
    forall i, j :: 0 <= i < j < |c| && c[i].ean != "" ==> c[i].ean != c[j].ean
  }

  /** No two entries share brand and name, up to case and surrounding spaces. */
  ghost predicate UniqueNames(c: Catalogue) {
    forall i, j :: 0 <= i < j < |c| ==> !(FoldedName(c[i].name) == FoldedName(c[j].name) && c[i].brand == c[j].brand)
  }

  /** The code is padded with spaces: valid once trimmed, but searched for as it stands. */
  predicate PaddedEan(p: Product) {
    Ean.IsEan13(TrimSpace(p.info.ean)) && p.info.ean != TrimSpace(p.info.ean)
  }

  predicate HasCode(p: Product) {
    Ean.IsEan13(TrimSpace(p.info.ean))
  }

  /** No sync of the product in this weather can give two entries one name and brand. */
  predicate NameSafe(p: Product, w: Weather) {
    || !NeedsSync(p)
    || w.nameSearch != BadStatus
    || w.write == NotApplied
    || (HasCode(p) && w.eanSearch == NoReply)
  }

  /** No sync of the product in this weather can give two entries one code. */
  predicate EanSafe(p: Product, w: Weather) {
    || !NeedsSync(p)
    || !HasCode(p)
    || w.eanSearch == NoReply
    || w.nameSearch == NoReply
    || w.write == NotApplied
    || (w.eanSearch == Answered && !PaddedEan(p))
  }

  /** An update never renames an entry; a creation adds one at the end. */
  lemma SyncOnlyAppends(c: Catalogue, p: Product, w: Weather)
    ensures var d := Sync(c, p, w).catalogue;
            && |c| <= |d| <= |c| + 1
            && (forall i :: 0 <= i < |c| ==> d[i].ean == c[i].ean && d[i].name == c[i].name && d[i].brand == c[i].brand)
            && (|d| == |c| + 1 ==> d == c + [NewEntry(p)] && FindExisting(c, p, w) == Ok(None) && NeedsSync(p))
  {
    FindExistingFinds(c, p, w);
  }

  lemma SyncKeepsNames(c: Catalogue, p: Product, w: Weather)
    requires UniqueNames(c) && NameSafe(p, w)
    ensures UniqueNames(Sync(c, p, w).catalogue)
  {
    SyncOnlyAppends(c, p, w);
    FindExistingFinds(c, p, w);
  }

  lemma SyncKeepsEans(c: Catalogue, p: Product, w: Weather)
    requires UniqueEans(c) && EanSafe(p, w)
    ensures UniqueEans(Sync(c, p, w).catalogue)
  {
    SyncOnlyAppends(c, p, w);
    FindExistingFinds(c, p, w);
    if |Sync(c, p, w).catalogue| == |c| + 1 && NewEntry(p).ean != "" {
      assert NewEntry(p).ean == p.info.ean;
    }
  }

  /** A catalogue that has an entry of the product's name and brand, without a code. */
  function Namesake(p: Product): Entry {
    NewEntry(p).(ean := "")
  }

  lemma NamesakeIsDuplicated(p: Product, w: Weather)
    requires !NameSafe(p, w)
    ensures UniqueNames([Namesake(p)]) && !UniqueNames(Sync([Namesake(p)], p, w).catalogue)
  {
    var c := [Namesake(p)];
    EanIndexFinds(c, p.info.ean, 0);
    assert HasCode(p) ==> |TrimSpace(p.info.ean)| == 13;
    var from, to := TrimSpaceIsMiddle(p.info.ean);
    assert HasCode(p) ==> p.info.ean != "";
    assert FindExisting(c, p, w) == Ok(None);
    var d := Sync(c, p, w).catalogue;
    assert d == c + [NewEntry(p)];
    assert d[0].name == d[1].name && d[0].brand == d[1].brand;
  }

  /**
   Exactly when a sync can never duplicate a name, whatever unique names the catalogue holds: the
   product needs no sync, or its name search is not read as "not found", or the write does not take
   effect, or the search for its code errs first.
   */
  lemma NamesStayUniqueIff(p: Product, w: Weather)
    ensures (forall c: Catalogue :: UniqueNames(c) ==> UniqueNames(Sync(c, p, w).catalogue)) <==> NameSafe(p, w)
  {
    if NameSafe(p, w) {
      forall c: Catalogue | UniqueNames(c)
        ensures UniqueNames(Sync(c, p, w).catalogue)
      {
        SyncKeepsNames(c, p, w);
      }
    } else {
      NamesakeIsDuplicated(p, w);
    }
  }

  /** A catalogue in which the padded product's code belongs to an entry of another name. */
  function Rival(p: Product): Entry {
    Entry(TrimSpace(p.info.ean), p.info.title + "2", p.info.brand, "", None, "", "")
  }

  /** A name that does not end in a space and is lengthened by a digit is another name. */
  lemma RivalNameDiffers(title: string)
    ensures FoldedName(title + "2") != FoldedName(title)
  {
    var a, b := TrimSpaceIsMiddle(title);
    var c, d := TrimSpaceIsMiddle(title + "2");
    assert (title + "2")[|title|] == '2';
    assert d == |title| + 1;
    if a < b {
      assert TrimSpace(title)[0] == title[a] == (title + "2")[a];
      assert !IsSpace((title + "2")[a]);
    }
    assert |TrimSpace(title + "2")| > |TrimSpace(title)|;
    assert |FoldedName(title + "2")| == |TrimSpace(title + "2")| && |FoldedName(title)| == |TrimSpace(title)|;
  }

  /** The code of an entry of another name is given to a second one. */
  lemma RivalIsDuplicated(p: Product, w: Weather)
    requires !EanSafe(p, w)
    ensures UniqueEans([Rival(p)]) && UniqueNames([Rival(p)]) && !UniqueEans(Sync([Rival(p)], p, w).catalogue)
  {
    var c := [Rival(p)];
    RivalNameDiffers(p.info.title);
    EanIndexFinds(c, p.info.ean, 0);
    NameIndexFinds(c, p.info.title, p.info.brand, 0);
    assert !NameMatches(c[0], p.info.title, p.info.brand);
    assert FindExisting(c, p, w) == Ok(None);
    var d := Sync(c, p, w).catalogue;
    assert d == c + [NewEntry(p)];
    assert d[0].ean == d[1].ean == TrimSpace(p.info.ean);
    assert |TrimSpace(p.info.ean)| == 13;
  }

  /**
   Exactly when a sync can never duplicate a code, whatever unique codes the catalogue holds: the
   product needs no sync or has no valid code, or a search errs, or the write does not take effect,
   or the search for the code is answered and the code is not padded with spaces.
   */
  lemma EansStayUniqueIff(p: Product, w: Weather)
    ensures (forall c: Catalogue :: UniqueEans(c) ==> UniqueEans(Sync(c, p, w).catalogue)) <==> EanSafe(p, w)
  {
    if EanSafe(p, w) {
      forall c: Catalogue | UniqueEans(c)
        ensures UniqueEans(Sync(c, p, w).catalogue)
      {
        SyncKeepsEans(c, p, w);
      }
    } else {
      RivalIsDuplicated(p, w);
    }
  }

  /** A ready product with a padded code duplicates the code of another entry even when all goes well. */
  lemma PaddedEanDuplicates(p: Product)
    requires NeedsSync(p) && PaddedEan(p)
    ensures UniqueEans([Rival(p)]) && UniqueNames([Rival(p)]) && !UniqueEans(Sync([Rival(p)], p, FAIR).catalogue)
  {
    RivalIsDuplicated(p, FAIR);
  }

  /**
   Which products may be synced without ever duplicating a code, as long as no search for a code is
   read as "not found" wrongly: exactly those whose code is not padded.
   */
  lemma EansStayUniqueIffUnpadded(p: Product)
    requires NeedsSync(p)
    ensures (forall c: Catalogue, w: Weather ::
               UniqueEans(c) && w.eanSearch != BadStatus ==> UniqueEans(Sync(c, p, w).catalogue))
       <==> !PaddedEan(p)
  {
    if PaddedEan(p) {
      PaddedEanDuplicates(p);
      assert FAIR.eanSearch != BadStatus;
    } else {
      forall c: Catalogue, w: Weather | UniqueEans(c) && w.eanSearch != BadStatus
        ensures UniqueEans(Sync(c, p, w).catalogue)
      {
        SyncKeepsEans(c, p, w);
      }
    }
  }

  /** A name search that gets a bad status duplicates an existing entry. */
  lemma BadStatusDuplicates(p: Product)
    requires NeedsSync(p)
    ensures var w := FAIR.(nameSearch := BadStatus);
            UniqueNames([Namesake(p)]) && !UniqueNames(Sync([Namesake(p)], p, w).catalogue)
  {
    NamesakeIsDuplicated(p, FAIR.(nameSearch := BadStatus));
  }

  // ---------------------------------------------------------------- any sequence of syncs

  /** One sync attempt: the product as it stands in memory, and the network's behaviour. */
  datatype Attempt = Attempt(product: Product, weather: Weather)

  function SyncAll(c: Catalogue, attempts: seq<Attempt>): Catalogue {
    if attempts == [] then c
    else
      var last := attempts[|attempts| - 1];
      Sync(SyncAll(c, attempts[..|attempts| - 1]), last.product, last.weather).catalogue
  }

  ghost predicate AllNameSafe(attempts: seq<Attempt>) {
    forall i :: 0 <= i < |attempts| ==> NameSafe(attempts[i].product, attempts[i].weather)
  }

  ghost predicate AllEanSafe(attempts: seq<Attempt>) {
    forall i :: 0 <= i < |attempts| ==> EanSafe(attempts[i].product, attempts[i].weather)
  }

  /**
   Single creation. Over any sequence of syncs of any products, in which replies and local marks may
   be lost: unique names stay unique if each sync is safe for names, and unique codes if each is safe
   for codes.
   */
  lemma {:induction false} SyncsCreateOnce(c: Catalogue, attempts: seq<Attempt>)
    ensures UniqueNames(c) && AllNameSafe(attempts) ==> UniqueNames(SyncAll(c, attempts))
    ensures UniqueEans(c) && AllEanSafe(attempts) ==> UniqueEans(SyncAll(c, attempts))
  {
    if attempts != [] {
      var front := attempts[..|attempts| - 1];
      var last := attempts[|attempts| - 1];
      SyncsCreateOnce(c, front);
      if UniqueNames(c) && AllNameSafe(attempts) {
        SyncKeepsNames(SyncAll(c, front), last.product, last.weather);
      }
      if UniqueEans(c) && AllEanSafe(attempts) {
        SyncKeepsEans(SyncAll(c, front), last.product, last.weather);
      }
    }
  }

  /** Entries are never removed or renamed. */
  lemma {:induction false} EntriesStay(c: Catalogue, attempts: seq<Attempt>)
    ensures var d := SyncAll(c, attempts);
            |c| <= |d| && forall i :: 0 <= i < |c| ==>
                                        d[i].ean == c[i].ean && d[i].name == c[i].name && d[i].brand == c[i].brand
  {
    if attempts != [] {
      var front := attempts[..|attempts| - 1];
      EntriesStay(c, front);
      SyncOnlyAppends(SyncAll(c, front), attempts[|attempts| - 1].product, attempts[|attempts| - 1].weather);
    }
  }

  /**
   Re-syncing a product: once a sync has created its entry, then after any other syncs, a sync of a
   product of the same name and brand creates nothing, even though the reply or the mark of the first
   was lost, if and only if it is safe for names or the search for its code finds an entry.
   */
  lemma ResyncCreatesNothing(c: Catalogue, p: Product, w: Weather, between: seq<Attempt>, q: Product, v: Weather)
    requires |Sync(c, p, w).catalogue| == |c| + 1
    requires q.info.title == p.info.title && q.info.brand == p.info.brand
    ensures var d := SyncAll(Sync(c, p, w).catalogue, between);
            |Sync(d, q, v).catalogue| == |d|
            <==> NameSafe(q, v) || (HasCode(q) && v.eanSearch == Answered && EanIndex(d, q.info.ean, 0).Some?)
  {
    SyncOnlyAppends(c, p, w);
    var created := Sync(c, p, w).catalogue;
    EntriesStay(created, between);
    var d := SyncAll(created, between);
    assert created[|c|] == NewEntry(p) && NameMatches(d[|c|], q.info.title, q.info.brand);
    FindExistingFinds(d, q, v);
    NameIndexFinds(d, q.info.title, q.info.brand, 0);
    SyncOnlyAppends(d, q, v);
  }

  /** The search for an unpadded code finds the entry that the first sync created under it. */
  lemma CreatedCodeIsFound(c: Catalogue, p: Product, w: Weather, between: seq<Attempt>)
    requires |Sync(c, p, w).catalogue| == |c| + 1 && HasCode(p) && !PaddedEan(p)
    ensures EanIndex(SyncAll(Sync(c, p, w).catalogue, between), p.info.ean, 0).Some?
  {
    SyncOnlyAppends(c, p, w);
    var created := Sync(c, p, w).catalogue;
    EntriesStay(created, between);
    var d := SyncAll(created, between);
    assert created[|c|] == NewEntry(p) && d[|c|].ean == p.info.ean;
    EanIndexFinds(d, p.info.ean, 0);
  }

  // ---------------------------------------------------------------- the imperative client

  /** The remote catalogue, with the network's behaviour for the call in progress. */
  class Client {
    var entries: Catalogue

    constructor (entries: Catalogue)
      ensures this.entries == entries
    {
      this.entries := entries;
    }

    method SearchByEan(ean: string, reply: Reply) returns (r: Result<Option<nat>, SyncError>)
      ensures r == Search(EanIndex(entries, ean, 0), reply)
    {
      if reply == NoReply {
        return Err(SearchFailed);
      }
      if reply == BadStatus {
        return Ok(None);
      }
      for i := 0 to |entries|
        invariant EanIndex(entries, ean, 0) == EanIndex(entries, ean, i)
      {
        if entries[i].ean == ean {
          return Ok(Some(i));
        }
      }
      return Ok(None);
    }

    /** The first result whose trimmed name is the same up to case. */
    method SearchByNameBrand(name: string, brand: string, reply: Reply) returns (r: Result<Option<nat>, SyncError>)
      ensures r == Search(NameIndex(entries, name, brand, 0), reply)
    {
      if reply == NoReply {
        return Err(SearchFailed);
      }
      if reply == BadStatus {
        return Ok(None);
      }
      for i := 0 to |entries|
        invariant NameIndex(entries, name, brand, 0) == NameIndex(entries, name, brand, i)
      {
        if (brand == "" || entries[i].brand == brand) && FoldedName(entries[i].name) == FoldedName(name) {
          return Ok(Some(i));
        }
      }
      return Ok(None);
    }

    method Create(e: Entry, reply: WriteReply) returns (ok: bool)
      modifies this
      ensures ok <==> reply == Applied
      ensures entries == if reply == NotApplied then old(entries) else old(entries) + [e]
    {
      if reply != NotApplied {
        entries := entries + [e];
      }
      ok := reply == Applied;
    }

    method Update(i: nat, price: Option<int>, image: string, reply: WriteReply) returns (ok: bool)
      requires i < |entries|
      modifies this
      ensures ok <==> reply == Applied
      ensures |entries| == |old(entries)|
      ensures reply == NotApplied ==> entries == old(entries)
      ensures reply != NotApplied ==>
                var before := old(entries)[i];
                entries == old(entries)[i := before.(price := if price.Some? then price else before.price,
                image := if image != "" then image else before.image)]
    {
      if reply != NotApplied {
        var e := entries[i];
        if price.Some? {
          e := e.(price := price);
        }
        if image != "" {
          e := e.(image := image);
        }
        entries := entries[i := e];
      }
      ok := reply == Applied;
    }

    /**
     Execute of the sync use case. The in-memory product is marked whenever the write succeeds, even
     if marking its row fails; the result says whether the row is to be marked.
     */
    method SyncProduct(product: ScrapedProduct, w: Weather, now: Time) returns (markRow: bool, error: Option<SyncError>)
      modifies this, product
      ensures SyncResult(entries, markRow, error) == Sync(old(entries), old(product.Value()), w)
      ensures product.Value() == if NeedsSync(old(product.Value())) && error.None?
                                 then old(product.Value()).(syncedAt := Some(now)) else old(product.Value())
    {
      if !NeedsSync(product.Value()) {
        return false, None;
      }
      ghost var p, c := product.Value(), entries;
      FindExistingFinds(c, p, w);
      var existing: Option<nat> := None;
      if Ean.IsEan13(TrimSpace(product.ean)) {
        var byEan := SearchByEan(product.ean, w.eanSearch);
        if byEan.Err? {
          return false, Some(byEan.error);
        }
        existing := byEan.value;
      }
      if existing.None? {
        var byName := SearchByNameBrand(product.title, product.brand, w.nameSearch);
        if byName.Err? {
          return false, Some(byName.error);
        }
        existing := byName.value;
      }
      assert FindExisting(c, p, w) == Ok(existing);
      var ok;
      if existing.Some? {
        ok := Update(existing.value, product.price, product.image, w.write);
      } else {
        ok := Create(NewEntry(product.Value()), w.write);
      }
      if !ok {
        return false, Some(WriteFailed);
      }
      product.MarkSynced(now);
      return w.markStored, None;
    }
  }
}
