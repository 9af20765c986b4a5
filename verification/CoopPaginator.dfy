/** Page-number pagination over the Cooperativa Obrera catalogue, ended by two empty pages in a row. */
module CoopPaginator {
  import opened Prelude
  import opened RawProducts

  const MAX_EMPTY_PAGES := 2

  /** An article of the API. A price is absent when it is null or not a number. */
  datatype Article = Article(
    code: string,
    description: string,
    brand: string,
    price: Option<int>,
    promoPrice: Option<int>,
    formerPrice: Option<int>,
    image: string
  )

  datatype CoopError = CategoryRequired | Cancelled | RequestFailed

  /** The catalogue server: the articles of a page. */
  type Server = nat -> Result<seq<Article>, CoopError>

  function ParsePrice(p: Option<int>): int {
    match p
    case Some(cents) => cents
    case None => 0
  }

  /** The first positive of the current, promotional and former prices; otherwise the former one. */
  function SelectPrice(a: Article): int {
    if ParsePrice(a.price) > 0 then ParsePrice(a.price)
    else if ParsePrice(a.promoPrice) > 0 then ParsePrice(a.promoPrice)
    else ParsePrice(a.formerPrice)
  }

  function MapArticle(a: Article): Raw {
    Raw(a.description, Some(SelectPrice(a)), "", a.image, "", a.brand, "", a.code, "", None)
  }

  function MapArticles(articles: seq<Article>): seq<Raw> {
    seq(|articles|, i requires 0 <= i < |articles| => MapArticle(articles[i]))
  }

  predicate PageOk(serve: Server, page: nat) {
    serve(page).Ok?
  }

  predicate EmptyPage(serve: Server, page: nat) {
    serve(page).Ok? && serve(page).value == []
  }

  /** Pages k and k+1 are the first two empty pages in a row, and no page up to them fails. */
  ghost predicate EndsAt(serve: Server, k: nat) {
    && EmptyPage(serve, k) && EmptyPage(serve, k + 1)
    && (forall page: nat :: page < k ==> PageOk(serve, page))
    && (forall page: nat :: page < k ==> !(EmptyPage(serve, page) && EmptyPage(serve, page + 1)))
  }

  /** The products of pages 0 to k-1, in order. */
  function PagesUpTo(serve: Server, k: nat): seq<Raw>
    requires forall page: nat :: page < k ==> PageOk(serve, page)
  {
    if k == 0 then [] else
    assert PageOk(serve, k - 1);
    PagesUpTo(serve, k - 1) + MapArticles(serve(k - 1).value)
  }

  /**
   FetchHTTPJSON. The context is cancelled before request number deadline. The fetch succeeds exactly
   when the catalogue ends, by two empty pages in a row, early enough; then it returns every product
   before that end, isolated empty pages included, after two requests more than that.
   */
  method Fetch(serve: Server, categoryId: int, deadline: nat) returns (r: Result<seq<Raw>, CoopError>, requests: nat)
    ensures categoryId == 0 ==> r == Err(CategoryRequired) && requests == 0
    ensures categoryId != 0 ==> (r.Ok? <==> exists k: nat :: EndsAt(serve, k) && k + 2 <= deadline)
    ensures categoryId != 0 ==>
              forall k: nat :: EndsAt(serve, k) && k + 2 <= deadline ==>
                                 r == Ok(PagesUpTo(serve, k)) && requests == k + 2
    ensures requests <= deadline
  {
    requests := 0;
    if categoryId == 0 {
      return Err(CategoryRequired), 0;
    }
    var all: seq<Raw> := [];
    var page, emptyCount := 0, 0;
    while true
      invariant page == requests <= deadline
      invariant forall p: nat :: p < page ==> PageOk(serve, p)
      invariant all == PagesUpTo(serve, page)
      invariant 0 <= emptyCount <= 1 && (emptyCount == 1 <==> page > 0 && EmptyPage(serve, page - 1))
      invariant forall p: nat :: p + 1 < page ==> !(EmptyPage(serve, p) && EmptyPage(serve, p + 1))
      decreases deadline - page
    {
      if requests >= deadline {
        return Err(Cancelled), requests;
      }
      var response := serve(page);
      requests := requests + 1;
      if response.Err? {
        assert !PageOk(serve, page) && !EmptyPage(serve, page);
        return Err(response.error), requests;
      }
      var articles := response.value;
      if articles == [] {
        emptyCount := emptyCount + 1;
        if emptyCount >= MAX_EMPTY_PAGES {
          assert EndsAt(serve, page - 1);
          assert MapArticles(serve(page - 1).value) == [];
          assert PagesUpTo(serve, page) == PagesUpTo(serve, page - 1);
          break;
        }
        page := page + 1;
        continue;
      }
      emptyCount := 0;
      for i := 0 to |articles|
        invariant all == PagesUpTo(serve, page) + MapArticles(articles)[..i]
      {
        all := all + [MapArticle(articles[i])];
      }
      page := page + 1;
    }
    forall k: nat | EndsAt(serve, k)
      ensures k == page - 1
    {
    }
    r := Ok(all);
  }

  /**
   An article's description becomes the title, its code the SKU, and brand and image stay what they are; a
   positive current price wins over a promotional one, and that over the former one.
   */
  lemma ArticleIsMapped(a: Article)
    ensures var raw := MapArticle(a);
            && raw.title == a.description && raw.sku == a.code && raw.brand == a.brand && raw.image == a.image
            && raw.url == "" && raw.description == "" && raw.category == "" && raw.ean == "" && raw.inStock == None
            && (a.price.Some? && a.price.value > 0 ==> raw.price == a.price)
            && (!(a.price.Some? && a.price.value > 0) && a.promoPrice.Some? && a.promoPrice.value > 0 ==>
                  raw.price == a.promoPrice)
            && (!(a.price.Some? && a.price.value > 0) && !(a.promoPrice.Some? && a.promoPrice.value > 0) ==>
                  raw.price == Some(if a.formerPrice.Some? then a.formerPrice.value else 0))
  {
  }

  /** A mapped price is positive exactly when some price is; it is never absent, only zero or less. */
  lemma PositivePriceWins(a: Article)
    ensures MapArticle(a).price.Some?
    ensures MapArticle(a).price.value > 0
       <==> exists p :: p in [a.price, a.promoPrice, a.formerPrice] && ParsePrice(p) > 0
    ensures MapArticle(a).price.value in [ParsePrice(a.price), ParsePrice(a.promoPrice), ParsePrice(a.formerPrice)]
  {
    var all := [a.price, a.promoPrice, a.formerPrice];
    assert all[0] in all && all[1] in all && all[2] in all;
  }
}
