/** Range pagination over a VTEX storefront: _from/_to requests under the public API's offset cap. */
module VtexPaginator {
  import opened Prelude
  import opened Text

  const DEFAULT_PAGE_SIZE := 50
  const MAX_PAGE_SIZE := 50
  const MAX_OFFSET := 2500

  /** The inclusive range of one request. */
  datatype Range = Range(from: int, to: int)

  /** A response: the products and the total from its headers, negative when there is none. */
  datatype Page<T> = Page(products: seq<T>, total: int)

  datatype FetchError = Cancelled | RequestFailed

  /** A server may answer differently from one request to the next. */
  type Server<!T> = (nat, Range) -> Result<Page<T>, FetchError>

  function EffectivePageSize(pageSize: int): int {
    if pageSize <= 0 || pageSize > MAX_PAGE_SIZE then DEFAULT_PAGE_SIZE else pageSize
  }

  /** How many products the whole pages that begin below the offset cap hold. */
  function CapFor(pageSize: int): int
    requires pageSize > 0
  {
    pageSize * ((MAX_OFFSET + pageSize - 1) / pageSize)
  }

  /** The server answers every range with that part of the catalogue, with its true total or none. */
  ghost predicate Conforming<T(!new)>(serve: Server<T>, catalogue: seq<T>) {
    forall k: nat, r: Range :: 0 <= r.from <= r.to ==>
                                 && serve(k, r).Ok?
                                 && serve(k, r).value.products == Slice(catalogue, r.from, r.to + 1)
                                 && (serve(k, r).value.total < 0 || serve(k, r).value.total == |catalogue|)
  }

  function Slice<T>(s: seq<T>, from: nat, to: nat): seq<T>
    requires from <= to
  {
    s[Min(from, |s|)..Min(to, |s|)]
  }

  /** How much of a catalogue of n products is fetched: all of it, up to the maximum and the cap. */
  function FetchedLength(n: nat, pageSize: int, maxProducts: int): int {
    Min(Wanted(n, maxProducts), CapFor(EffectivePageSize(pageSize)))
  }

  /** asked is a number of whole pages. */
  predicate IsMultiple(size: int, asked: int)
    requires size > 0
    decreases asked
  {
    asked == 0 || (asked >= size && IsMultiple(size, asked - size))
  }

  /** Whole pages, the last of which begins below the offset cap, hold at most cap, and cap at the end. */
  ghost predicate IsCap(size: int, cap: int)
    requires size > 0
  {
    forall asked :: IsMultiple(size, asked) && asked < MAX_OFFSET + size ==>
                      asked <= cap && (asked >= MAX_OFFSET ==> asked == cap)
  }

  lemma {:induction false} MultipleHasCount(size: int, asked: int) returns (pages: nat)
    requires size > 0 && IsMultiple(size, asked)
    ensures asked == size * pages
    decreases asked
  {
    pages := 0;
    if asked != 0 {
      var fewer := MultipleHasCount(size, asked - size);
      pages := fewer + 1;
    }
  }

  lemma CapForIsCap(size: int)
    requires size > 0
    ensures IsCap(size, CapFor(size)) && CapFor(size) >= 0
  {
    var needed := (MAX_OFFSET + size - 1) / size;
    assert MAX_OFFSET <= size * needed < MAX_OFFSET + size;
    forall asked | IsMultiple(size, asked) && asked < MAX_OFFSET + size
      ensures asked <= CapFor(size) && (asked >= MAX_OFFSET ==> asked == CapFor(size))
    {
      var pages := MultipleHasCount(size, asked);
      SameBlock(size, pages, needed);
    }
  }

  lemma SameBlock(size: int, a: int, b: int)
    requires size >= 1 && size * a < MAX_OFFSET + size && MAX_OFFSET <= size * b < MAX_OFFSET + size
    ensures size * a <= size * b && (size * a >= MAX_OFFSET ==> a == b)
  {
    if a > b {
      Monotone(size, b + 1, a);
    } else if a < b {
      Monotone(size, a, b - 1);
    }
  }

  lemma Monotone(size: int, a: int, b: int)
    requires size >= 0 && a <= b
    ensures size * a <= size * b
  {
  }

  /** Requests start below the cap, in increasing order, and ask for at most fifty products each. */
  ghost predicate GoodRequests(requests: seq<Range>) {
    && (forall i :: 0 <= i < |requests| ==> 0 <= requests[i].from < MAX_OFFSET)
    && (forall i :: 0 <= i < |requests| ==> 1 <= requests[i].to - requests[i].from + 1 <= MAX_PAGE_SIZE)
    && (forall i, j :: 0 <= i < j < |requests| ==> requests[i].from < requests[j].from)
  }

  /** How many products the next request asks for; none once the maximum is reached. */
  function Remaining(size: int, maxProducts: int, fetched: int): int {
    if maxProducts > 0 then Min(size, maxProducts - fetched) else size
  }

  function Wanted(n: nat, maxProducts: int): nat {
    if maxProducts > 0 then Min(n, maxProducts) else n
  }

  /** What has been fetched from a conforming server after asking for so many products. */
  predicate IsFetched<T(==)>(all: seq<T>, catalogue: seq<T>, asked: int, from: int, maxProducts: int) {
    from == |all| == Min(asked, Wanted(|catalogue|, maxProducts)) && all == catalogue[..from]
  }

  /** One more page from a conforming server keeps what is fetched a prefix of the catalogue. */
  lemma NextPage<T>(all: seq<T>, catalogue: seq<T>, size: int, asked: int, from: int, maxProducts: int,
                    products: seq<T>)
    requires size >= 1 && asked >= 0 && IsFetched(all, catalogue, asked, from, maxProducts)
    requires Remaining(size, maxProducts, from) > 0
    requires products == Slice(catalogue, from, from + Remaining(size, maxProducts, from))
    ensures IsFetched(all + products, catalogue, asked + size, from + |products|, maxProducts)
    ensures products == [] ==> from == Wanted(|catalogue|, maxProducts)
  {
    assert catalogue[..from] + products == catalogue[..from + |products|];
  }

  lemma ServedPage<T(!new)>(serve: Server<T>, catalogue: seq<T>, k: nat, range: Range)
    requires Conforming(serve, catalogue) && 0 <= range.from <= range.to
    ensures serve(k, range).Ok?
    ensures serve(k, range).value.products == Slice(catalogue, range.from, range.to + 1)
    ensures serve(k, range).value.total < 0 || serve(k, range).value.total == |catalogue|
  {
  }

  lemma OneMoreRequest(requests: seq<Range>, range: Range)
    requires GoodRequests(requests) && forall i :: 0 <= i < |requests| ==> requests[i].from < range.from
    requires 0 <= range.from < MAX_OFFSET && 1 <= range.to - range.from + 1 <= MAX_PAGE_SIZE
    ensures GoodRequests(requests + [range])
  {
  }

  /** The width of the next request: a page, or what the maximum still allows. */
  method NextWidth(size: int, maxProducts: int, fetched: nat) returns (remaining: int)
    ensures remaining == Remaining(size, maxProducts, fetched)
  {
    remaining := size;
    if maxProducts > 0 {
      var left := maxProducts - fetched;
      if left < remaining {
        remaining := left;
      }
    }
  }

  /**
   Fetches page after page until the catalogue, the maximum or the offset cap is exhausted. The
   context is checked before each request; it is cancelled before request number deadline.
   */
  method FetchPages<T(!new)>(serve: Server<T>, size: int, maxProducts: int, deadline: nat, ghost catalogue: seq<T>,
                             ghost cap: int)
    returns (r: Result<seq<T>, FetchError>, requests: seq<Range>)
    requires 1 <= size <= MAX_PAGE_SIZE && cap >= 0 && IsCap(size, cap)
    ensures GoodRequests(requests) && |requests| <= 2500
    ensures Conforming(serve, catalogue) && deadline > 2500 ==>
              r == Ok(catalogue[..Min(Wanted(|catalogue|, maxProducts), cap)])
  {
    var all: seq<T> := [];
    var from := 0;
    var total := -1;
    requests := [];
    ghost var asked := 0;
    ghost var conforming := Conforming(serve, catalogue);
    while true
      invariant |requests| <= from && |requests| <= 2500 && GoodRequests(requests)
      invariant forall i :: 0 <= i < |requests| ==> requests[i].from < from
      invariant IsMultiple(size, asked) && 0 <= asked < MAX_OFFSET + size
      invariant conforming ==> IsFetched(all, catalogue, asked, from, maxProducts)
      invariant conforming ==> total < 0 || total == |catalogue|
      decreases MAX_OFFSET - from
    {
      if |requests| >= deadline {
        return Err(Cancelled), requests;
      }
      if total >= 0 && from >= total {
        break;
      }
      if from >= MAX_OFFSET {
        break;
      }
      var remaining := NextWidth(size, maxProducts, |all|);
      if remaining <= 0 {
        break;
      }
      var range := Range(from, from + remaining - 1);
      var response := serve(|requests|, range);
      OneMoreRequest(requests, range);
      requests := requests + [range];
      if response.Err? {
        return Err(response.error), requests;
      }
      var page := response.value;
      if total < 0 {
        total := page.total;
      }
      if conforming {
        ServedPage(serve, catalogue, |requests| - 1, range);
        NextPage(all, catalogue, size, asked, from, maxProducts, page.products);
      }
      all := all + page.products;
      if page.products == [] {
        break;
      }
      from := from + |page.products|;
      asked := if asked < MAX_OFFSET then asked + size else asked;
    }
    r := Ok(all);
  }

  /**
   FetchHTTPJSON: against a conforming server the result is the prefix of the catalogue that fits
   the maximum and the offset cap, whether or not responses carry a total; against any server it
   makes at most 2500 requests, all within the cap.
   */
  method Fetch<T(!new)>(serve: Server<T>, pageSize: int, maxProducts: int, deadline: nat, ghost catalogue: seq<T>)
    returns (r: Result<seq<T>, FetchError>, requests: seq<Range>)
    ensures GoodRequests(requests) && |requests| <= 2500
    ensures forall i :: 0 <= i < |requests| ==>
                          0 <= requests[i].from < 2500 && 1 <= requests[i].to - requests[i].from + 1 <= 50
    ensures Conforming(serve, catalogue) && deadline > 2500 ==>
              r == Ok(catalogue[..FetchedLength(|catalogue|, pageSize, maxProducts)])
  {
    var size := EffectivePageSize(pageSize);
    CapForIsCap(size);
    r, requests := FetchPages(serve, size, maxProducts, deadline, catalogue, CapFor(size));
  }

  /**
   The lengths in numbers: what is wanted of up to 2500 products comes back whole; of more, as much as the
   first number of whole pages that reaches 2500, a page being of the configured size, if that is between 1
   and 50, and of 50 products otherwise.
   */
  lemma FetchedInNumbers(n: nat, pageSize: int, maxProducts: int)
    ensures var wanted := if 0 < maxProducts < n then maxProducts else n;
            var size := if 1 <= pageSize <= 50 then pageSize else 50;
            var length := FetchedLength(n, pageSize, maxProducts);
            && (wanted <= 2500 ==> length == wanted)
            && (length < wanted ==> 2500 <= length < 2500 + size && IsMultiple(size, length))
  {
    var size := EffectivePageSize(pageSize);
    var pages := (2500 + size - 1) / size;
    assert 2500 <= size * pages < 2500 + size;
    WholePages(size, pages);
  }

  lemma {:induction false} WholePages(size: int, pages: nat)
    requires size > 0
    ensures IsMultiple(size, size * pages)
  {
    if pages > 0 {
      assert size * pages == size * (pages - 1) + size;
      WholePages(size, pages - 1);
    }
  }

  // ---------------------------------------------------------------- the total header

  predicate IsDigit(c: char) {
    '0' <= c <= '9'
  }

  /** strconv.Atoi on decimal digits with an optional sign, in the range of a 64-bit int. */
  function Atoi(s: string): Option<int> {
    if s == [] then None
    else if s[0] == '-' then Ranged(Digits(s[1..]), -1)
    else if s[0] == '+' then Ranged(Digits(s[1..]), 1)
    else Ranged(Digits(s), 1)
  }

  function Ranged(digits: Option<int>, sign: int): Option<int> {
    if digits.Some? && -0x8000_0000_0000_0000 <= sign * digits.value < 0x8000_0000_0000_0000
    then Some(sign * digits.value) else None
  }

  function Digits(s: string): Option<int> {
    if s == [] || !IsDigit(s[|s| - 1]) then None
    else
      var d := s[|s| - 1] as int - '0' as int;
      if |s| == 1 then Some(d)
      else
        var front := Digits(s[..|s| - 1]);
        if front.Some? then Some(10 * front.value + d) else None
  }

  function CountSlashes(s: string): nat {
    if s == [] then 0 else (if s[0] == '/' then 1 else 0) + CountSlashes(s[1..])
  }

  /** The part after the first slash. */
  function AfterSlash(s: string): string {
    if s == [] then [] else if s[0] == '/' then s[1..] else AfterSlash(s[1..])
  }

  /** The total of a "range/total" header, -1 when the header has another shape. */
  function ParseTotal(header: string): int {
    if header == [] || CountSlashes(header) != 1 then -1
    else
      match Atoi(TrimSpace(AfterSlash(header)))
      case Some(total) => total
      case None => -1
  }

  /** The decimal numeral of n. */
  function Numeral(n: nat): string {
    if n < 10 then [('0' as int + n) as char] else Numeral(n / 10) + [('0' as int + n % 10) as char]
  }

  lemma {:induction false} NumeralReadsBack(n: nat)
    ensures Digits(Numeral(n)) == Some(n)
    ensures Numeral(n) != [] && forall i :: 0 <= i < |Numeral(n)| ==> IsDigit(Numeral(n)[i])
  {
    if n >= 10 {
      NumeralReadsBack(n / 10);
      var s := Numeral(n);
      assert s[..|s| - 1] == Numeral(n / 10);
    }
  }

  lemma {:induction false} OneSlash(range: string, total: string)
    requires forall i :: 0 <= i < |range| ==> range[i] != '/'
    requires forall i :: 0 <= i < |total| ==> total[i] != '/'
    ensures CountSlashes(range + ['/'] + total) == 1 && AfterSlash(range + ['/'] + total) == total
  {
    if range == [] {
      assert (range + ['/'] + total)[1..] == total;
      NoSlash(total);
    } else {
      assert (range + ['/'] + total)[1..] == range[1..] + ['/'] + total;
      OneSlash(range[1..], total);
    }
  }

  lemma {:induction false} NoSlash(s: string)
    requires forall i :: 0 <= i < |s| ==> s[i] != '/'
    ensures CountSlashes(s) == 0
  {
    if s != [] {
      NoSlash(s[1..]);
    }
  }

  /** Whatever range precedes the slash, the header of a total of n is read back as n. */
  lemma TotalRoundTrip(range: string, n: nat)
    requires forall i :: 0 <= i < |range| ==> range[i] != '/'
    requires n < 0x8000_0000_0000_0000
    ensures ParseTotal(range + ['/'] + Numeral(n)) == n
  {
    NumeralReadsBack(n);
    var total := Numeral(n);
    OneSlash(range, total);
    TrimmedStays(total);
    assert (range + ['/'] + total) != [];
  }

  lemma {:induction false} SlashPosition(s: string) returns (i: nat)
    requires CountSlashes(s) == 1
    ensures i < |s| && s[i] == '/' && AfterSlash(s) == s[i + 1..]
    ensures forall j :: 0 <= j < |s| && j != i ==> s[j] != '/'
  {
    if s[0] == '/' {
      i := 0;
      NoneWithoutSlash(s[1..]);
      assert forall j :: 1 <= j < |s| ==> s[j] == s[1..][j - 1];
    } else {
      var k := SlashPosition(s[1..]);
      i := k + 1;
      assert forall j :: 1 <= j < |s| ==> s[j] == s[1..][j - 1];
    }
  }

  lemma {:induction false} NoneWithoutSlash(s: string)
    requires CountSlashes(s) == 0
    ensures forall j :: 0 <= j < |s| ==> s[j] != '/'
  {
    if s != [] {
      NoneWithoutSlash(s[1..]);
      assert forall j :: 1 <= j < |s| ==> s[j] == s[1..][j - 1];
    }
  }

  lemma {:induction false} DigitsAreDigits(s: string)
    requires Digits(s).Some?
    ensures s != [] && forall j :: 0 <= j < |s| ==> '0' <= s[j] <= '9'
    ensures Digits(s).value >= 0
  {
    if |s| > 1 {
      DigitsAreDigits(s[..|s| - 1]);
    }
  }

  /**
   A header gives a total only if it has exactly one slash, followed, up to spaces, by decimal digits with at
   most a sign before them; a header of any other shape gives none.
   */
  lemma OnlyTotalsAreRead(header: string)
    requires ParseTotal(header) != -1
    ensures exists i :: 0 <= i < |header| && header[i] == '/' && IsNumeral(TrimSpace(header[i + 1..]))
                        && forall j :: 0 <= j < |header| && j != i ==> header[j] != '/'
  {
    var i := SlashPosition(header);
    var total := TrimSpace(AfterSlash(header));
    if total[0] == '-' || total[0] == '+' {
      DigitsAreDigits(total[1..]);
      assert forall j :: 1 <= j < |total| ==> total[j] == total[1..][j - 1];
    } else {
      DigitsAreDigits(total);
    }
    assert IsNumeral(TrimSpace(header[i + 1..]));
  }

  predicate IsNumeral(s: string) {
    && s != [] && (forall j :: 1 <= j < |s| ==> '0' <= s[j] <= '9')
    && ('0' <= s[0] <= '9' || (|s| > 1 && (s[0] == '-' || s[0] == '+')))
  }
}
