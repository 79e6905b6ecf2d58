/** How a category's product total becomes its listing-page URLs (`get_page_urls`). */
module Pagination {
  import opened Outcomes
  import opened Text

  /** Products per listing page of the target store. */
  const PageSize: int := 20

  /** `product_count // 20 + 1 if product_count else 0`. Python's `//` floors, and for
      the positive divisor 20 Dafny's `/` floors as well. */
  function PageCount(total: int): (r: int)
    ensures total == 0 ==> r == 0
    ensures total > 0 ==> r >= 1 && (r - 1) * PageSize <= total < r * PageSize
    ensures total < 0 ==> r <= 0
  {
    if total != 0 then total / PageSize + 1 else 0
  }

  /** The number of pages actually needed to show `total` products. */
  function CeilPages(total: nat): (r: nat)
    ensures r * PageSize >= total
    ensures r > 0 ==> (r - 1) * PageSize < total
  {
    (total + PageSize - 1) / PageSize
  }

  /** The page count agrees with the ceiling except on exact multiples of 20,
      where it asks for one page more. */
  lemma PageCountAgainstCeiling(total: nat)
    requires total > 0
    ensures total % PageSize == 0 ==> PageCount(total) == CeilPages(total) + 1
    ensures total % PageSize != 0 ==> PageCount(total) == CeilPages(total)
  {
    var q, m := total / PageSize, total % PageSize;
    assert total == q * PageSize + m;
    if m == 0 {
      assert CeilPages(total) == (q * PageSize + (PageSize - 1)) / PageSize == q;
    } else {
      assert CeilPages(total) == ((q + 1) * PageSize + (m - 1)) / PageSize == q + 1;
    }
  }

  /** `f'{category_url}?page={page}'`. */
  function PageUrl(categoryUrl: string, page: nat): (r: string)
    ensures |r| > |categoryUrl + "?page="| && r[..|categoryUrl + "?page="|] == categoryUrl + "?page="
    ensures forall k :: |categoryUrl + "?page="| <= k < |r| ==> IsDigit(r[k])
  {
    categoryUrl + "?page=" + DecimalString(page)
  }

  /** Two page URLs of one category coincide only for the same page number. */
  lemma PageUrlInjective(categoryUrl: string, m: nat, n: nat)
    requires PageUrl(categoryUrl, m) == PageUrl(categoryUrl, n)
    ensures m == n
  {
    var p := categoryUrl + "?page=";
    var a, b := DecimalString(m), DecimalString(n);
    assert |a| == |b|;
    assert a == PageUrl(categoryUrl, m)[|p|..];
    assert b == PageUrl(categoryUrl, n)[|p|..];
    DecimalInjective(m, n);
  }

  /** The URL list built when the page count is truthy:
      `[f'{category_url}?page={page}' for page in range(1, page_count + 1)]`,
      which is empty for a negative count. */
  function PageUrls(categoryUrl: string, total: int): (r: seq<string>)
    ensures PageCount(total) <= 0 ==> r == []
    ensures PageCount(total) > 0 ==> |r| == PageCount(total)
    ensures forall i :: 0 <= i < |r| ==> r[i] == PageUrl(categoryUrl, i + 1)
  {
    var n := PageCount(total);
    if n != 0 then seq(if n > 0 then n else 0, i requires 0 <= i => PageUrl(categoryUrl, i + 1)) else []
  }

  /** The listing URLs are pairwise distinct. */
  lemma PageUrlsDistinct(categoryUrl: string, total: int, i: nat, j: nat)
    requires i < j < |PageUrls(categoryUrl, total)|
    ensures PageUrls(categoryUrl, total)[i] != PageUrls(categoryUrl, total)[j]
  {
    if PageUrls(categoryUrl, total)[i] == PageUrls(categoryUrl, total)[j] {
      PageUrlInjective(categoryUrl, i + 1, j + 1);
    }
  }

  /** A URL is listed exactly when it is the URL of some page 1..page count. */
  lemma PageUrlsMembership(categoryUrl: string, total: int, u: string)
    ensures u in PageUrls(categoryUrl, total)
        <==> exists k: nat :: 1 <= k <= PageCount(total) && u == PageUrl(categoryUrl, k)
  {
    var r := PageUrls(categoryUrl, total);
    if u in r {
      var i :| 0 <= i < |r| && r[i] == u;
      assert 1 <= i + 1 <= PageCount(total) && u == PageUrl(categoryUrl, i + 1);
    }
    if exists k: nat :: 1 <= k <= PageCount(total) && u == PageUrl(categoryUrl, k) {
      var k: nat :| 1 <= k <= PageCount(total) && u == PageUrl(categoryUrl, k);
      assert r[k - 1] == u;
    }
  }

  /** What the lookup of `props.initialProps.pageProps.initialProductData.total`
      in the page's `__NEXT_DATA__` script yields. A JSON null total behaves as
      `Total(0)`. */
  datatype NextData =
    | Total(count: int)
    | MissingKey   // a key on the path is absent: `KeyError`, caught
    | Malformed    // no script tag or bad JSON: any other exception, not caught

  /** The category page as the network and the parser deliver it. */
  datatype CategoryFetch = CategoryFetchFailed | CategoryPage(data: NextData)

  /** What the `get_page_urls` task hands to `gather`: its URL list, or the
      exception that escaped it. */
  function PageUrlsOutcome(categoryUrl: string, fetch: CategoryFetch): (r: Outcome<seq<string>>)
    ensures r.Raised? <==> fetch.CategoryFetchFailed? || fetch.data.Malformed?
    ensures fetch == CategoryPage(MissingKey) ==> r == Returned([])
    ensures fetch.CategoryPage? && fetch.data.Total? ==> r == Returned(PageUrls(categoryUrl, fetch.data.count))
  {
    match fetch
    case CategoryFetchFailed => Raised
    case CategoryPage(Malformed) => Raised
    case CategoryPage(MissingKey) => Returned([])
    case CategoryPage(Total(n)) => Returned(PageUrls(categoryUrl, n))
  }
}
