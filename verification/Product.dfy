/** The scraped product: its value, how a new observation changes it, and the mutable entity. */
module Products {
  import opened Prelude
  import opened RawProducts

  type Uuid = nat

  type Time = int

  /** What the content hash identifies: tenant, source, and the text "title:url". */
  datatype Key = Key(tenant: Uuid, source: Uuid, content: string)

  /** What observations say about a product. */
  datatype Info = Info(
    title: string,
    price: Option<int>,
    url: string,
    image: string,
    description: string,
    brand: string,
    category: string,
    sku: string,
    ean: string,
    inStock: bool,
    firstSeenAt: Time,
    lastSeenAt: Time,
    priceChangedAt: Option<Time>
  )

  datatype Product = Product(
    id: Uuid,
    key: Key,
    info: Info,
    blocked: bool,
    hiddenAt: Option<Time>,
    syncedAt: Option<Time>
  )

  function KeyOf(tenant: Uuid, source: Uuid, raw: Raw): Key {
    Key(tenant, source, raw.title + ":" + raw.url)
  }

  function NewInfo(raw: Raw, now: Time): Info {
    Info(raw.title, raw.price, raw.url, raw.image, raw.description, raw.brand, raw.category, raw.sku, raw.ean,
         if raw.inStock.Some? then raw.inStock.value else true, now, now, None)
  }

  function NewProduct(id: Uuid, tenant: Uuid, source: Uuid, raw: Raw, now: Time): Product {
    Product(id, KeyOf(tenant, source, raw), NewInfo(raw, now), false, None, None)
  }

  /** A field that is filled once. */
  function Fill(stored: string, observed: string): string {
    if stored == "" then observed else stored
  }

  function FillPrice(stored: Option<int>, observed: Option<int>): Option<int> {
    if stored.None? then observed else stored
  }

  /** The fields after filling what is missing. */
  function Filled(p: Info, raw: Raw): Info {
    FilledDetails(FilledListing(p, raw), raw)
  }

  function FilledListing(p: Info, raw: Raw): Info {
    p.(image := Fill(p.image, raw.image), category := Fill(p.category, raw.category), brand := Fill(p.brand, raw.brand))
  }

  function FilledDetails(p: Info, raw: Raw): Info {
    p.(description := Fill(p.description, raw.description), url := Fill(p.url, raw.url),
    price := FillPrice(p.price, raw.price))
  }

  /** An observation has something that the product lacks. */
  predicate HasMore(p: Info, raw: Raw) {
    ListsMore(p, raw) || DetailsMore(p, raw)
  }

  predicate ListsMore(p: Info, raw: Raw) {
    || (p.image == "" && raw.image != "")
    || (p.category == "" && raw.category != "")
    || (p.brand == "" && raw.brand != "")
  }

  predicate DetailsMore(p: Info, raw: Raw) {
    || (p.description == "" && raw.description != "")
    || (p.url == "" && raw.url != "")
    || (p.price.None? && raw.price.Some?)
  }

  /** The fields after EnrichFields. */
  function Enriched(p: Info, raw: Raw, now: Time): Info {
    if HasMore(p, raw) then Filled(p, raw).(lastSeenAt := now) else p
  }

  predicate HasPriceChanged(p: Info, price: int) {
    p.price.Some? && p.price.value != price
  }

  function Repriced(p: Info, price: int, now: Time): Info {
    p.(price := Some(price), priceChangedAt := Some(now), lastSeenAt := now)
  }

  function Touched(p: Info, now: Time): Info {
    p.(lastSeenAt := now)
  }

  /** A row that the guard of the upsert statement protects. */
  predicate Frozen(p: Product) {
    p.blocked || p.hiddenAt.Some?
  }

  predicate IsReady(p: Product) {
    p.info.price.Some? && p.info.image != "" && p.info.category != "" && p.hiddenAt.None? && !p.blocked
  }

  predicate NeedsSync(p: Product) {
    IsReady(p) && p.syncedAt.None?
  }

  /** What one observation makes of the fields of a stored product. */
  function Observed(p: Info, raw: Raw, now: Time): Info {
    var e := Enriched(p, raw, now);
    if raw.price.Some? && HasPriceChanged(e, raw.price.value) then Repriced(e, raw.price.value, now)
    else Touched(e, now)
  }

  /** One fill-once assignment, and whether it changed anything. */
  method FillText(stored: string, observed: string) returns (value: string, filled: bool)
    ensures value == Fill(stored, observed)
    ensures filled <==> value != stored
  {
    if stored == "" && observed != "" {
      return observed, true;
    }
    return stored, false;
  }

  /** The in-memory product that the use cases mutate. */
  class ScrapedProduct {
    const id: Uuid
    const key: Key
    const title: string
    const sku: string
    const ean: string
    const firstSeenAt: Time
    var price: Option<int>
    var url: string
    var image: string
    var description: string
    var brand: string
    var category: string
    var inStock: bool
    var blocked: bool
    var hiddenAt: Option<Time>
    var lastSeenAt: Time
    var priceChangedAt: Option<Time>
    var syncedAt: Option<Time>

    constructor (p: Product)
      ensures Value() == p
    {
      id, key, title, sku, ean, firstSeenAt := p.id, p.key, p.info.title, p.info.sku, p.info.ean, p.info.firstSeenAt;
      price, url, image, description := p.info.price, p.info.url, p.info.image, p.info.description;
      brand, category, inStock := p.info.brand, p.info.category, p.info.inStock;
      lastSeenAt, priceChangedAt := p.info.lastSeenAt, p.info.priceChangedAt;
      blocked, hiddenAt, syncedAt := p.blocked, p.hiddenAt, p.syncedAt;
    }

    function Facts(): Info
      reads this
    {
      Info(title, price, url, image, description, brand, category, sku, ean, inStock, firstSeenAt, lastSeenAt,
           priceChangedAt)
    }

    function Value(): Product
      reads this
    {
      Product(id, key, Facts(), blocked, hiddenAt, syncedAt)
    }

    method FillListing(raw: Raw) returns (filled: bool)
      modifies this`image, this`category, this`brand
      ensures Facts() == FilledListing(old(Facts()), raw)
      ensures filled <==> ListsMore(old(Facts()), raw)
    {
      var i, c, b;
      image, i := FillText(image, raw.image);
      category, c := FillText(category, raw.category);
      brand, b := FillText(brand, raw.brand);
      filled := i || c || b;
    }

    method FillDetails(raw: Raw) returns (filled: bool)
      modifies this`description, this`url, this`price
      ensures Facts() == FilledDetails(old(Facts()), raw)
      ensures filled <==> DetailsMore(old(Facts()), raw)
    {
      var d, u;
      description, d := FillText(description, raw.description);
      url, u := FillText(url, raw.url);
      filled := d || u || (price.None? && raw.price.Some?);
      if price.None? && raw.price.Some? {
        price := raw.price;
      }
    }

    /** Fills what is missing; a field that has a value keeps it. */
    method EnrichFields(raw: Raw, now: Time) returns (enriched: bool)
      modifies this
      ensures Value() == old(Value()).(info := Enriched(old(Facts()), raw, now))
      ensures enriched <==> HasMore(old(Facts()), raw)
      ensures enriched ==> lastSeenAt == now
      ensures image == (if old(image) == "" then raw.image else old(image))
      ensures category == (if old(category) == "" then raw.category else old(category))
      ensures brand == (if old(brand) == "" then raw.brand else old(brand))
      ensures description == (if old(description) == "" then raw.description else old(description))
      ensures url == (if old(url) == "" then raw.url else old(url))
      ensures price == if old(price).None? then raw.price else old(price)
    {
      var listed := FillListing(raw);
      var detailed := FillDetails(raw);
      enriched := listed || detailed;
      if enriched {
        lastSeenAt := now;
      }
    }

    method UpdatePrice(newPrice: int, now: Time)
      modifies this
      ensures Value() == old(Value()).(info := Repriced(old(Facts()), newPrice, now))
      ensures price == Some(newPrice) && priceChangedAt == Some(now) && lastSeenAt == now
    {
      price := Some(newPrice);
      priceChangedAt := Some(now);
      lastSeenAt := now;
    }

    method TouchLastSeen(now: Time)
      modifies this
      ensures Value() == old(Value()).(info := Touched(old(Facts()), now))
      ensures lastSeenAt == now
    {
      lastSeenAt := now;
    }

    method MarkSynced(now: Time)
      modifies this
      ensures Value() == old(Value()).(syncedAt := Some(now))
    {
      syncedAt := Some(now);
    }
  }

  // ---------------------------------------------------------------- the content hash

  /** The string that is hashed. */
  function HashInput(tenant: string, source: string, title: string, url: string): string {
    tenant + ":" + source + ":" + title + ":" + url
  }

  /**
   Identifiers are printed with a fixed width, so two hashed strings are equal exactly when tenant,
   source and the text "title:url" are.
   */
  lemma HashInputIdentifiesKey(t: string, s: string, title: string, url: string,
                               t': string, s': string, title': string, url': string)
    requires |t| == |t'| && |s| == |s'|
    ensures HashInput(t, s, title, url) == HashInput(t', s', title', url')
       <==> t == t' && s == s' && title + ":" + url == title' + ":" + url'
  {
    var a, b := HashInput(t, s, title, url), HashInput(t', s', title', url');
    var n, m := |t|, |t| + 1 + |s|;
    assert a[..n] == t && a[n + 1..m] == s && a[m + 1..] == title + ":" + url;
    assert b[..n] == t' && b[n + 1..m] == s' && b[m + 1..] == title' + ":" + url';
    if t == t' && s == s' && title + ":" + url == title' + ":" + url' {
      assert a == a[..n] + ":" + a[n + 1..m] + ":" + a[m + 1..];
      assert b == b[..n] + ":" + b[n + 1..m] + ":" + b[m + 1..];
    }
  }

  predicate NoColon(s: string) {
    forall i :: 0 <= i < |s| ==> s[i] != ':'
  }

  /** Observations whose titles contain no colon share a key only when tenant, source, title and url are equal. */
  lemma KeysSeparatePlainTitles(tenant: Uuid, source: Uuid, a: Raw, tenant': Uuid, source': Uuid, b: Raw)
    requires NoColon(a.title) && NoColon(b.title)
    ensures KeyOf(tenant, source, a) == KeyOf(tenant', source', b)
       <==> tenant == tenant' && source == source' && a.title == b.title && a.url == b.url
  {
    var x, y := a.title + ":" + a.url, b.title + ":" + b.url;
    if x == y {
      assert x[|a.title|] == ':' && y[|b.title|] == ':';
      assert |a.title| == |b.title|;
      assert a.title == x[..|a.title|] && b.title == y[..|b.title|];
      assert a.url == x[|a.title| + 1..] && b.url == y[|b.title| + 1..];
    }
  }

  /** Splitting "title:url" at another colon gives another observation with the same text. */
  lemma SplitElsewhere(a: Raw, i: nat) returns (b: Raw)
    requires i < |a.title + ":" + a.url| && (a.title + ":" + a.url)[i] == ':' && i != |a.title|
    ensures |b.title| == i && b.title != a.title && b.title + ":" + b.url == a.title + ":" + a.url
  {
    var text := a.title + ":" + a.url;
    b := a.(title := text[..i], url := text[i + 1..]);
    assert b.title + ":" + b.url == text;
  }

  /** Two observations with the same text and different titles differ in where their first colon stands. */
  lemma OtherColon(a: Raw, b: Raw)
    requires a.title != b.title && a.title + ":" + a.url == b.title + ":" + b.url
    ensures |b.title| != |a.title|
    ensures |b.title| < |a.title| ==> a.title[|b.title|] == ':'
    ensures |b.title| > |a.title| ==> |b.title| - |a.title| - 1 < |a.url| && a.url[|b.title| - |a.title| - 1] == ':'
  {
    var x, y := a.title + ":" + a.url, b.title + ":" + b.url;
    assert a.title == x[..|a.title|] && b.title == y[..|b.title|];
    assert y[|b.title|] == ':';
  }

  /**
   Exactly which observations share a key with one of another title: those with a colon in their
   title or url. If only observations with a title count, as in a scrape, it must not be the colon
   that the title begins with.
   */
  lemma KeyIsSharedIff(tenant: Uuid, source: Uuid, a: Raw)
    ensures (exists b: Raw :: b.title != a.title && KeyOf(tenant, source, a) == KeyOf(tenant, source, b))
       <==> ':' in a.title || ':' in a.url
    ensures a.title != "" ==>
              ((exists b: Raw ::
                  b.title != "" && b.title != a.title && KeyOf(tenant, source, a) == KeyOf(tenant, source, b))
               <==> ':' in a.title[1..] || ':' in a.url)
  {
    var text := a.title + ":" + a.url;
    forall b: Raw | b.title != a.title && KeyOf(tenant, source, a) == KeyOf(tenant, source, b)
      ensures ':' in a.title || ':' in a.url
      ensures a.title != "" && b.title != "" ==> ':' in a.title[1..] || ':' in a.url
    {
      OtherColon(a, b);
      if 0 < |b.title| < |a.title| {
        assert a.title[1..][|b.title| - 1] == ':';
      }
    }
    if ':' in a.url {
      var j :| 0 <= j < |a.url| && a.url[j] == ':';
      assert text[|a.title| + 1 + j] == ':';
      var b := SplitElsewhere(a, |a.title| + 1 + j);
      assert KeyOf(tenant, source, a) == KeyOf(tenant, source, b) && b.title != "";
    } else if a.title != "" && ':' in a.title[1..] {
      var j :| 0 <= j < |a.title[1..]| && a.title[1..][j] == ':';
      assert text[j + 1] == a.title[j + 1] == ':';
      var b := SplitElsewhere(a, j + 1);
      assert KeyOf(tenant, source, a) == KeyOf(tenant, source, b) && b.title != "";
    } else if ':' in a.title {
      var j :| 0 <= j < |a.title| && a.title[j] == ':';
      assert text[j] == ':';
      var b := SplitElsewhere(a, j);
      assert KeyOf(tenant, source, a) == KeyOf(tenant, source, b);
    }
  }

  /** With a colon in a title they can share a key and differ in both. */
  lemma KeysMergeSomeTitles(tenant: Uuid, source: Uuid, raw: Raw)
    ensures KeyOf(tenant, source, raw.(title := "a:b", url := "c"))
         == KeyOf(tenant, source, raw.(title := "a", url := "b:c"))
  {
    assert "a:b" + ":" + "c" == "a:b:c" == "a" + ":" + "b:c";
  }
}
