/** The `Scraper` object: its progress counters, the files it reads, appends and
    rewrites, and the batch operations of the crawl. What the network and the
    page parsers deliver for a URL is an input: a function from URL to outcome
    given to each batch. */
module Scraping {
  import opened Outcomes
  import opened Text
  import opened Pagination
  import opened Frontier
  import opened Dataset

  /** A listing page as the network and the `"mainVariant"` pattern deliver it:
      the request failed, or the page was read and these captures were found.
      The response status is not consulted. */
  datatype PageFetch = PageFetchFailed | PageFetched(matches: seq<Match>)

  /** The product URLs `get_product_urls` returns for a listing page: one per
      capture, in capture order, and none when the request failed. */
  function ProductUrlsOf(fetch: PageFetch): (r: seq<string>)
    ensures fetch.PageFetchFailed? ==> r == []
    ensures fetch.PageFetched? ==> |r| == |fetch.matches|
    ensures fetch.PageFetched? ==> forall i :: 0 <= i < |r| ==> r[i] == ItemUrl(fetch.matches[i])
  {
    match fetch
    case PageFetchFailed => []
    case PageFetched(ms) => seq(|ms|, i requires 0 <= i < |ms| => ItemUrl(ms[i]))
  }

  /** A listing page is logged as processed exactly when the pattern matched. */
  predicate Logged(fetch: PageFetch) {
    fetch.PageFetched? && fetch.matches != []
  }

  /** What the product-page parser makes of a page read with status 200. */
  datatype Extraction = ExtractionFailed | Extracted(fields: ProductFields)

  /** A product page as the network delivers it. */
  datatype ProductFetch = ProductFetchFailed | ProductResponse(status: int, extraction: Extraction)

  /** `parse_product` stores a record for the URL. */
  predicate Saves(fetch: ProductFetch) {
    fetch.ProductResponse? && fetch.status == 200 && fetch.extraction.Extracted?
  }

  /** The response was read but its status is not 200: `parse_product` reaches
      the end of its body and returns `None`. */
  predicate FallsThrough(fetch: ProductFetch) {
    fetch.ProductResponse? && fetch.status != 200
  }

  /** What `parse_product` returns: 1 after saving, 0 after a caught exception,
      `None` when the status is not 200. */
  function ParseResult(fetch: ProductFetch): (r: Option<nat>)
    ensures r == Some(1) <==> Saves(fetch)
    ensures r == Some(0) <==> !Saves(fetch) && !FallsThrough(fetch)
    ensures r == None <==> FallsThrough(fetch)
  {
    match fetch
    case ProductFetchFailed => Some(0)
    case ProductResponse(status, extraction) =>
      if status != 200 then None
      else if extraction.ExtractionFailed? then Some(0)
      else Some(1)
  }

  /** `sum(results)`: the running total from 0, or `None` for the `TypeError`
      raised on adding `None` to it. */
  function SumResults(rs: seq<Option<nat>>): (r: Option<nat>)
    ensures r.Some? <==> forall k :: 0 <= k < |rs| ==> rs[k].Some?
  {
    if rs == [] then Some(0)
    else match (SumResults(rs[..|rs| - 1]), rs[|rs| - 1])
      case (Some(a), Some(b)) => Some(a + b)
      case _ => None
  }

  /** `parse_product`'s results for the URLs in launch order. */
  function ParseResults(order: seq<string>, fetch: string -> ProductFetch): (r: seq<Option<nat>>)
    ensures |r| == |order|
    ensures forall i :: 0 <= i < |r| ==> r[i] == ParseResult(fetch(order[i]))
  {
    seq(|order|, i requires 0 <= i < |order| => ParseResult(fetch(order[i])))
  }

  /** The URLs in `order` whose product was saved, in order. */
  function SavedUrls(order: seq<string>, fetch: string -> ProductFetch): (r: seq<string>)
    ensures |r| <= |order|
    ensures forall u :: u in r <==> u in order && Saves(fetch(u))
  {
    if order == [] then []
    else
      var last := order[|order| - 1];
      SavedUrls(order[..|order| - 1], fetch) + (if Saves(fetch(last)) then [last] else [])
  }

  /** The listing pages in `order` that are logged as processed, in order. */
  function LoggedPages(order: seq<string>, fetch: string -> PageFetch): (r: seq<string>)
    ensures |r| <= |order|
    ensures forall u :: u in r <==> u in order && Logged(fetch(u))
  {
    if order == [] then []
    else
      var last := order[|order| - 1];
      LoggedPages(order[..|order| - 1], fetch) + (if Logged(fetch(last)) then [last] else [])
  }

  /** How many listing pages in `order` were read at all. */
  function FetchedCount(order: seq<string>, fetch: string -> PageFetch): (r: nat)
    ensures r <= |order|
  {
    if order == [] then 0
    else FetchedCount(order[..|order| - 1], fetch) + (if fetch(order[|order| - 1]).PageFetched? then 1 else 0)
  }

  /** How many tasks returned rather than raised. */
  function ReturnedCount(results: seq<Outcome<seq<string>>>): (r: nat)
    ensures r <= |results|
  {
    if results == [] then 0
    else ReturnedCount(results[..|results| - 1]) + (if results[|results| - 1].Returned? then 1 else 0)
  }

  /** What the `get_page_urls` tasks for these categories hand to `gather`, in order. */
  function CategoryOutcomes(categories: seq<string>, fetch: string -> CategoryFetch): (r: seq<Outcome<seq<string>>>)
    ensures |r| == |categories|
    ensures forall i :: 0 <= i < |r| ==> r[i] == PageUrlsOutcome(categories[i], fetch(categories[i]))
  {
    seq(|categories|, i requires 0 <= i < |categories| => PageUrlsOutcome(categories[i], fetch(categories[i])))
  }

  /** What the `get_product_urls` tasks for these pages hand to `gather`, in order. */
  function PageOutcomes(order: seq<string>, fetch: string -> PageFetch): (r: seq<Outcome<seq<string>>>)
    ensures |r| == |order|
    ensures forall i :: 0 <= i < |r| ==> r[i] == Returned(ProductUrlsOf(fetch(order[i])))
  {
    seq(|order|, i requires 0 <= i < |order| => Returned(ProductUrlsOf(fetch(order[i]))))
  }

  /** `order` lists every element of `s` exactly once: one iteration over a Python set. */
  ghost predicate Enumerates(order: seq<string>, s: set<string>) {
    && Distinct(order)
    && (forall u :: u in order <==> u in s)
  }

  lemma ParseResultsSnoc(order: seq<string>, u: string, fetch: string -> ProductFetch)
    ensures ParseResults(order + [u], fetch) == ParseResults(order, fetch) + [ParseResult(fetch(u))]
  {
  }

  lemma SavedUrlsSnoc(order: seq<string>, u: string, fetch: string -> ProductFetch)
    ensures SavedUrls(order + [u], fetch) == SavedUrls(order, fetch) + (if Saves(fetch(u)) then [u] else [])
  {
    assert (order + [u])[..|order|] == order;
  }

  lemma LoggedPagesSnoc(order: seq<string>, u: string, fetch: string -> PageFetch)
    ensures LoggedPages(order + [u], fetch) == LoggedPages(order, fetch) + (if Logged(fetch(u)) then [u] else [])
  {
    assert (order + [u])[..|order|] == order;
  }

  lemma FetchedCountSnoc(order: seq<string>, u: string, fetch: string -> PageFetch)
    ensures FetchedCount(order + [u], fetch) == FetchedCount(order, fetch) + (if fetch(u).PageFetched? then 1 else 0)
  {
    assert (order + [u])[..|order|] == order;
  }

  lemma PageOutcomesSnoc(order: seq<string>, u: string, fetch: string -> PageFetch)
    ensures PageOutcomes(order + [u], fetch) == PageOutcomes(order, fetch) + [Returned(ProductUrlsOf(fetch(u)))]
  {
  }

  /** The `sum` of a batch's results after one more result. */
  lemma SumResultsSnoc(rs: seq<Option<nat>>, x: Option<nat>)
    ensures SumResults(rs + [x]) == if SumResults(rs).Some? && x.Some? then Some(SumResults(rs).value + x.value) else None
  {
    assert (rs + [x])[..|rs|] == rs;
  }

  /** The product batch's `sum` is defined exactly when no product page came back
      with a status other than 200, and then it counts the products saved. */
  lemma {:induction false} SumCountsSaves(order: seq<string>, fetch: string -> ProductFetch)
    ensures SumResults(ParseResults(order, fetch)).Some? <==> forall u :: u in order ==> !FallsThrough(fetch(u))
    ensures SumResults(ParseResults(order, fetch)).Some? ==>
              SumResults(ParseResults(order, fetch)).value == |SavedUrls(order, fetch)|
  {
    if order != [] {
      var init, last := order[..|order| - 1], order[|order| - 1];
      assert order == init + [last];
      SumCountsSaves(init, fetch);
      ParseResultsSnoc(init, last, fetch);
      SavedUrlsSnoc(init, last, fetch);
      SumResultsSnoc(ParseResults(init, fetch), ParseResult(fetch(last)));
    }
  }

  /** Python's `sum` on the results `parse_product` can return fails as soon as
      one of them is `None`. */
  lemma SumFailsOnNone()
    ensures SumResults([Some(1), None, Some(0)]) == None
    ensures SumResults([Some(1), Some(0), Some(1)]) == Some(2)
  {
    assert [Some(1), None, Some(0)][..2] == [Some(1), None];
    assert [Some(1), None][..1] == [Some(1)];
    assert [Some(1), Some(0), Some(1)][..2] == [Some(1), Some(0)];
    assert [Some(1), Some(0)][..1] == [Some(1)];
    assert [Some(1)][..0] == [];
  }

  /** `pages_urls.txt` as `scrape_categories` writes it reads back, line by line,
      as the list it was written from. */
  lemma PagesFileRoundTrip(pageUrls: seq<string>)
    requires forall k :: 0 <= k < |pageUrls| ==> CleanLine(pageUrls[k]) && pageUrls[k] != []
    ensures ReadLines(Join(pageUrls)) == pageUrls
  {
    assert SplitLines("") == [];
    if pageUrls != [] {
      ReadJoinedBatch("", pageUrls);
      assert "" + Join(pageUrls) == Join(pageUrls);
    } else {
      assert Join(pageUrls) == "";
    }
  }

  /** The evident intent of `parse_product`: a page with another status counts
      as not saved, like every other failure. */
  function IntendedParseResult(fetch: ProductFetch): (r: nat)
    ensures r == 1 <==> Saves(fetch)
    ensures r <= 1
  {
    if Saves(fetch) then 1 else 0
  }

  /** The intended batch total: the sum of the intended results. */
  function IntendedSum(order: seq<string>, fetch: string -> ProductFetch): (r: nat)
  {
    if order == [] then 0
    else IntendedSum(order[..|order| - 1], fetch) + IntendedParseResult(fetch(order[|order| - 1]))
  }

  /** With the intended results the batch total is always defined, counts exactly
      the products saved, and agrees with the written `sum` wherever that is defined. */
  lemma {:induction false} IntendedSumCountsSaves(order: seq<string>, fetch: string -> ProductFetch)
    ensures IntendedSum(order, fetch) == |SavedUrls(order, fetch)|
    ensures SumResults(ParseResults(order, fetch)).Some? ==>
              SumResults(ParseResults(order, fetch)) == Some(IntendedSum(order, fetch))
  {
    if order != [] {
      IntendedSumCountsSaves(order[..|order| - 1], fetch);
    }
    SumCountsSaves(order, fetch);
  }

  /** Partway through one iteration over the set `urls`: `order` lists the
      elements visited, each once, and `remaining` the rest. */
  ghost predicate Enumerating(order: seq<string>, urls: set<string>, remaining: set<string>) {
    && remaining <= urls
    && (forall u :: u in order <==> u in urls && u !in remaining)
    && Distinct(order)
  }

  /** Visiting one more element keeps the iteration consistent; a finished one
      has enumerated the set. */
  lemma EnumeratingStep(order: seq<string>, urls: set<string>, remaining: set<string>, u: string)
    requires Enumerating(order, urls, remaining) && u in remaining
    ensures Enumerating(order + [u], urls, remaining - {u})
    ensures remaining - {u} == {} ==> Enumerates(order + [u], urls)
  {
    DistinctSnoc(order, u);
  }

  /** The saves among URLs that occur once each occur once each. */
  lemma {:induction false} SavedUrlsDistinct(order: seq<string>, fetch: string -> ProductFetch)
    requires Distinct(order)
    ensures Distinct(SavedUrls(order, fetch))
  {
    if order != [] {
      var init, last := order[..|order| - 1], order[|order| - 1];
      assert order == init + [last];
      assert Distinct(init) && last !in init;
      SavedUrlsDistinct(init, fetch);
      SavedUrlsSnoc(init, last, fetch);
      if Saves(fetch(last)) {
        DistinctSnoc(SavedUrls(init, fetch), last);
      }
    }
  }

  /** Two iterations over the same set save the same number of products,
      whatever order they run in. */
  lemma SavedCountAnyOrder(a: seq<string>, b: seq<string>, s: set<string>, fetch: string -> ProductFetch)
    requires Enumerates(a, s) && Enumerates(b, s)
    ensures |SavedUrls(a, fetch)| == |SavedUrls(b, fetch)|
  {
    SavedUrlsDistinct(a, fetch);
    SavedUrlsDistinct(b, fetch);
    DistinctCard(SavedUrls(a, fetch));
    DistinctCard(SavedUrls(b, fetch));
    assert AsSet(SavedUrls(a, fetch)) == AsSet(SavedUrls(b, fetch));
  }

  /** The `for url in urls: tasks.append(asyncio.create_task(...))` loop: one
      task per element of the set, in the set's iteration order. */
  method LaunchOrder(urls: set<string>) returns (tasks: seq<string>)
    ensures Enumerates(tasks, urls)
  {
    var remaining := urls;
    tasks := [];
    while remaining != {}
      invariant Enumerating(tasks, urls, remaining)
      decreases remaining
    {
      var u :| u in remaining;
      EnumeratingStep(tasks, urls, remaining, u);
      tasks := tasks + [u];
      remaining := remaining - {u};
    }
  }

  /** The dataset `d` is `d0` with a record appended for each of the URLs in
      `saved`, in that order, and every entry of `d0` untouched. */
  ghost predicate Extends(d0: Accumulator, d: Accumulator, saved: seq<string>, fetch: string -> ProductFetch) {
    && WellFormed(d)
    && d.keys == d0.keys + saved
    && (forall u :: u in d0.entries ==> u in d.entries && d.entries[u] == d0.entries[u])
    && (forall u :: u in saved ==> Saves(fetch(u)) && u in d.entries
                                   && d.entries[u] == ProductRecord(u, fetch(u).extraction.fields))
  }

  /** Saving one more product that is not in the dataset yet keeps it an extension. */
  lemma ExtendsPut(d0: Accumulator, d: Accumulator, saved: seq<string>, fetch: string -> ProductFetch, u: string)
    requires WellFormed(d0) && Extends(d0, d, saved, fetch)
    requires Saves(fetch(u)) && u !in d0.entries && u !in saved
    ensures Extends(d0, Put(d, u, ProductRecord(u, fetch(u).extraction.fields)), saved + [u], fetch)
  {
    assert u !in d.keys;
    var d' := Put(d, u, ProductRecord(u, fetch(u).extraction.fields));
    assert d'.keys == d.keys + [u];
    forall k | k in saved + [u]
      ensures Saves(fetch(k)) && k in d'.entries && d'.entries[k] == ProductRecord(k, fetch(k).extraction.fields)
    {
      if k != u {
        assert k in saved;
      }
    }
  }

  /** Parsing one more product that is not in the dataset yet keeps the dataset
      an extension, whether or not the product was saved. */
  lemma ExtendsStep(d0: Accumulator, d: Accumulator, d': Accumulator, saved: seq<string>, saved': seq<string>,
                    fetch: string -> ProductFetch, u: string)
    requires WellFormed(d0) && Extends(d0, d, saved, fetch)
    requires u !in d0.entries && u !in saved
    requires Saves(fetch(u)) ==> d' == Put(d, u, ProductRecord(u, fetch(u).extraction.fields)) && saved' == saved + [u]
    requires !Saves(fetch(u)) ==> d' == d && saved' == saved
    ensures Extends(d0, d', saved', fetch)
  {
    if Saves(fetch(u)) {
      ExtendsPut(d0, d, saved, fetch, u);
    }
  }

  /** The URL list each `get_product_urls` task of `s` returns, by page. */
  function PageResults(s: set<string>, fetch: string -> PageFetch): (m: map<string, Outcome<seq<string>>>)
    ensures m.Keys == s
  {
    map u | u in s :: Returned(ProductUrlsOf(fetch(u)))
  }

  /** The result each `parse_product` task of `s` returns, by URL. */
  function ProductResults(s: set<string>, fetch: string -> ProductFetch): (m: map<string, Option<nat>>)
    ensures m.Keys == s
  {
    map u | u in s :: ParseResult(fetch(u))
  }

  lemma PageResultsStep(urls: set<string>, remaining: set<string>, u: string, fetch: string -> PageFetch)
    requires u in remaining && remaining <= urls
    ensures PageResults(urls - remaining, fetch)[u := Returned(ProductUrlsOf(fetch(u)))] == PageResults(urls - (remaining - {u}), fetch)
  {
    assert urls - (remaining - {u}) == (urls - remaining) + {u};
  }

  lemma ProductResultsStep(urls: set<string>, remaining: set<string>, u: string, fetch: string -> ProductFetch)
    requires u in remaining && remaining <= urls
    ensures ProductResults(urls - remaining, fetch)[u := ParseResult(fetch(u))] == ProductResults(urls - (remaining - {u}), fetch)
  {
    assert urls - (remaining - {u}) == (urls - remaining) + {u};
  }

  /** Gathering a page batch in launch order gives the outcomes of its pages in that order. */
  lemma GatherPages(tasks: seq<string>, urls: set<string>, fetch: string -> PageFetch)
    requires Enumerates(tasks, urls)
    ensures forall i :: 0 <= i < |tasks| ==> tasks[i] in PageResults(urls, fetch)
    ensures Gather(tasks, PageResults(urls, fetch)) == PageOutcomes(tasks, fetch)
  {
    assert forall i :: 0 <= i < |tasks| ==> tasks[i] in tasks;
  }

  /** Gathering a product batch in launch order gives the results of its URLs in that order. */
  lemma GatherProducts(tasks: seq<string>, urls: set<string>, fetch: string -> ProductFetch)
    requires Enumerates(tasks, urls)
    ensures forall i :: 0 <= i < |tasks| ==> tasks[i] in ProductResults(urls, fetch)
    ensures Gather(tasks, ProductResults(urls, fetch)) == ParseResults(tasks, fetch)
  {
    assert forall i :: 0 <= i < |tasks| ==> tasks[i] in tasks;
  }

  /** The `sum` over a batch gathered in launch order is defined exactly when no
      page fell through, and then counts the products saved in
      completion order. */
  lemma BatchTotal(order: seq<string>, done: seq<string>, urls: set<string>, fetch: string -> ProductFetch)
    requires Enumerates(order, urls) && Enumerates(done, urls)
    ensures SumResults(ParseResults(order, fetch)).Some? <==> forall u :: u in order ==> !FallsThrough(fetch(u))
    ensures SumResults(ParseResults(order, fetch)).Some? ==>
              SumResults(ParseResults(order, fetch)).value == |SavedUrls(done, fetch)|
  {
    SumCountsSaves(order, fetch);
    SavedCountAnyOrder(order, done, urls, fetch);
  }

  /** What `products_urls.txt` reads back as after a batch of clean URLs is
      appended with `'\n'.join`: the old lines then the batch when the file was
      missing or ended in a newline; otherwise the old last line glued to the
      first URL. Either way a non-empty batch leaves the file without a final
      newline. */
  lemma BatchReadBack(f: string, ls: seq<string>)
    ensures CleanUrls(ls) && LineTerminated(f) ==> ReadLines(f + Join(ls)) == ReadLines(f) + ls
    ensures CleanUrls(ls) && ls != [] && !LineTerminated(f) ==> ReadLines(f + Join(ls)) == GluedLines(f, ls)
    ensures CleanUrls(ls) && ls != [] ==> !LineTerminated(f + Join(ls))
  {
    if CleanUrls(ls) {
      if ls == [] {
        assert f + Join(ls) == f;
      } else {
        JoinLeavesPartialLine(f, ls);
        if LineTerminated(f) {
          ReadJoinedBatch(f, ls);
        } else {
          ReadJoinedAfterPartialLine(f, ls);
        }
      }
    }
  }

  class Scraper {
    /** Progress counters: categories, listing pages and products handled. */
    var categoryIndex: nat
    var pageIndex: nat
    var productIndex: nat

    /** `intermediate_data.json`: the URL keys in insertion order and their entries. */
    var interKeys: seq<string>
    var interData: map<string, FieldMap>

    /** `pages_urls.txt`, `pages_urls_processed.txt` and `products_urls.txt`
        as text; `None` while the file does not exist. */
    var pagesUrlsFile: Option<string>
    var processedPagesFile: Option<string>
    var productUrlsFile: Option<string>

    /** `products.csv` as a table of rows; `None` while it does not exist. */
    var finalDataset: Option<seq<seq<string>>>

    function Inter(): Accumulator
      reads this
    {
      Accumulator(interKeys, interData)
    }

    ghost predicate Valid()
      reads this
    {
      WellFormed(Inter())
    }

    function ProcessedLogText(): string
      reads this
    {
      processedPagesFile.GetOr("")
    }

    function ProductUrlsText(): string
      reads this
    {
      productUrlsFile.GetOr("")
    }

    /** `__init__` with `_setup`: an absent intermediate dataset is created empty;
        the counters start at zero. The other files are as found. */
    constructor (inter: Option<Accumulator>, pagesFile: Option<string>, processedFile: Option<string>,
                 productFile: Option<string>, table: Option<seq<seq<string>>>)
      requires inter.Some? ==> WellFormed(inter.value)
      ensures Valid()
      ensures Inter() == inter.GetOr(Empty)
      ensures categoryIndex == 0 && pageIndex == 0 && productIndex == 0
      ensures pagesUrlsFile == pagesFile && processedPagesFile == processedFile
      ensures productUrlsFile == productFile && finalDataset == table
    {
      match inter {
        case None =>
          interKeys, interData := [], map[];
        case Some(d) =>
          interKeys, interData := d.keys, d.entries;
      }
      pagesUrlsFile, processedPagesFile, productUrlsFile := pagesFile, processedFile, productFile;
      finalDataset := table;
      categoryIndex, pageIndex, productIndex := 0, 0, 0;
    }

    /** `_get_processed_page_urls`: the stripped lines of the processed-pages log,
        none when it does not exist. */
    function ProcessedPageUrls(): (r: seq<string>)
      reads this
      ensures processedPagesFile.None? ==> r == []
    {
      ReadLinesOrEmpty(processedPagesFile)
    }

    /** `_get_pages_urls_from_file`: `None` for the `FileNotFoundError` of a missing file. */
    function PagesUrlsFromFile(): (r: Option<seq<string>>)
      reads this
      ensures r.Some? <==> pagesUrlsFile.Some?
      ensures r.Some? ==> r.value == ReadLines(pagesUrlsFile.value)
    {
      match pagesUrlsFile
      case None => None
      case Some(s) => Some(ReadLines(s))
    }

    /** `_get_product_urls_from_file`: `None` for the `FileNotFoundError` of a missing file. */
    function ProductUrlsFromFile(): (r: Option<seq<string>>)
      reads this
      ensures r.Some? <==> productUrlsFile.Some?
      ensures r.Some? ==> r.value == ReadLines(productUrlsFile.value)
    {
      match productUrlsFile
      case None => None
      case Some(s) => Some(ReadLines(s))
    }

    /** `_get_processed_product_urls`: the keys of the intermediate dataset. */
    function ProcessedProductUrls(): (r: set<string>)
      reads this
      requires Valid()
      ensures r == AsSet(interKeys)
    {
      interData.Keys
    }

    /** `_save_processed_page_url`: appends the URL and a newline, creating the
        log if needed. On a well-formed log the URL reads back as one more line. */
    method SaveProcessedPageUrl(pageUrl: string)
      modifies this`processedPagesFile
      ensures processedPagesFile == Some(old(ProcessedLogText()) + pageUrl + "\n")
      ensures LineTerminated(ProcessedLogText())
      ensures old(LineTerminated(ProcessedLogText())) && CleanLine(pageUrl) ==>
                ProcessedPageUrls() == old(ProcessedPageUrls()) + [pageUrl]
    {
      ghost var before := ProcessedLogText();
      processedPagesFile := Some(ProcessedLogText() + pageUrl + "\n");
      if LineTerminated(before) && CleanLine(pageUrl) {
        ReadAppendLine(before, pageUrl);
      }
    }

    /** `get_page_urls` for one category: returns its listing URLs, or raises
        (request failure, no usable `__NEXT_DATA__`); the category counter
        advances only when it returns. */
    method GetPageUrls(categoryUrl: string, fetch: CategoryFetch) returns (r: Outcome<seq<string>>)
      modifies this`categoryIndex
      ensures r == PageUrlsOutcome(categoryUrl, fetch)
      ensures categoryIndex == old(categoryIndex) + (if r.Returned? then 1 else 0)
    {
      if fetch.CategoryFetchFailed? || fetch.data.Malformed? {
        return Raised;
      }
      categoryIndex := categoryIndex + 1;
      var pagesUrls: seq<string> := [];
      if fetch.data.Total? {
        pagesUrls := PageUrls(categoryUrl, fetch.data.count);
      }
      r := Returned(pagesUrls);
    }

    /** `scrape_categories` after the sitemap is parsed: one task per category in
        sitemap order, the list results concatenated, written to `pages_urls.txt`. */
    method ScrapeCategories(categoriesUrls: seq<string>, fetch: string -> CategoryFetch)
      returns (pageUrls: seq<string>)
      modifies this`categoryIndex, this`pagesUrlsFile
      ensures pageUrls == Flatten(CategoryOutcomes(categoriesUrls, fetch))
      ensures categoryIndex == old(categoryIndex) + ReturnedCount(CategoryOutcomes(categoriesUrls, fetch))
      ensures pagesUrlsFile == Some(Join(pageUrls))
      ensures CleanUrls(pageUrls) ==> PagesUrlsFromFile() == Some(pageUrls)
    {
      var results: seq<Outcome<seq<string>>> := [];
      var i := 0;
      while i < |categoriesUrls|
        invariant 0 <= i <= |categoriesUrls|
        invariant results == CategoryOutcomes(categoriesUrls[..i], fetch)
        invariant categoryIndex == old(categoryIndex) + ReturnedCount(results)
      {
        var r := GetPageUrls(categoriesUrls[i], fetch(categoriesUrls[i]));
        assert (results + [r])[..|results|] == results;
        results := results + [r];
        i := i + 1;
      }
      assert categoriesUrls[..i] == categoriesUrls;
      pageUrls := Flatten(results);
      pagesUrlsFile := Some(Join(pageUrls));
      if CleanUrls(pageUrls) {
        ReadJoin(pageUrls);
      }
    }

    /** `get_product_urls` for one listing page: one product URL per capture in
        capture order, the page logged as processed when there is a capture,
        and nothing but an empty list when the request fails. */
    method GetProductUrls(pageUrl: string, fetch: PageFetch) returns (productUrls: seq<string>)
      modifies this`pageIndex, this`processedPagesFile
      ensures productUrls == ProductUrlsOf(fetch)
      ensures pageIndex == old(pageIndex) + (if fetch.PageFetched? then 1 else 0)
      ensures processedPagesFile == if Logged(fetch) then Some(old(ProcessedLogText()) + pageUrl + "\n")
                                    else old(processedPagesFile)
    {
      productUrls := [];
      if fetch.PageFetchFailed? {
        return;
      }
      var items := fetch.matches;
      pageIndex := pageIndex + 1;
      if items != [] {
        SaveProcessedPageUrl(pageUrl);
        var k := 0;
        while k < |items|
          invariant 0 <= k <= |items|
          invariant |productUrls| == k
          invariant forall j :: 0 <= j < k ==> productUrls[j] == ItemUrl(items[j])
        {
          productUrls := productUrls + [ItemUrl(items[k])];
          k := k + 1;
        }
      }
    }

    /** `scrape_pages`: one task per listing page not yet logged as processed,
        launched in the set's iteration order (`order`). Each task runs its body
        to the end once its response has arrived, so they take effect one
        at a time in the order they complete (`done`): that order advances the
        page counter and appends to the processed log. `gather` hands back the
        URL lists in launch order; they are concatenated and appended to
        `products_urls.txt` with `'\n'.join`. */
    method ScrapePages(pagesUrls: seq<string>, fetch: string -> PageFetch)
      returns (productUrls: seq<string>, ghost order: seq<string>, ghost done: seq<string>)
      modifies this`pageIndex, this`processedPagesFile, this`productUrlsFile
      ensures Enumerates(order, Schedule(pagesUrls, AsSet(old(ProcessedPageUrls()))))
      ensures Enumerates(done, Schedule(pagesUrls, AsSet(old(ProcessedPageUrls()))))
      ensures productUrls == Flatten(PageOutcomes(order, fetch))
      ensures pageIndex == old(pageIndex) + FetchedCount(done, fetch)
      ensures processedPagesFile == AppendLines(old(processedPagesFile), LoggedPages(done, fetch))
      ensures productUrlsFile == Some(old(ProductUrlsText()) + Join(productUrls))
      ensures CleanUrls(productUrls) && LineTerminated(old(ProductUrlsText())) ==>
                ProductUrlsFromFile() == Some(ReadLines(old(ProductUrlsText())) + productUrls)
      ensures CleanUrls(productUrls) && productUrls != [] && !LineTerminated(old(ProductUrlsText())) ==>
                ProductUrlsFromFile() == Some(GluedLines(old(ProductUrlsText()), productUrls))
      ensures CleanUrls(productUrls) && productUrls != [] ==> !LineTerminated(ProductUrlsText())
    {
      var processed := ProcessedPageUrls();
      var urls := Schedule(pagesUrls, AsSet(processed));
      var tasks := LaunchOrder(urls);
      order := tasks;
      var returned;
      returned, done := RunPageTasks(urls, fetch);
      GatherPages(tasks, urls, fetch);
      var results := Gather(tasks, returned);
      productUrls := Flatten(results);
      ghost var before := ProductUrlsText();
      productUrlsFile := Some(ProductUrlsText() + Join(productUrls));
      BatchReadBack(before, productUrls);
    }

    /** The `get_product_urls` tasks of one batch, each taking effect when it
        completes, in the order `done`; the URL list each returns, by page. */
    method RunPageTasks(urls: set<string>, fetch: string -> PageFetch)
      returns (returned: map<string, Outcome<seq<string>>>, ghost done: seq<string>)
      modifies this`pageIndex, this`processedPagesFile
      ensures Enumerates(done, urls)
      ensures returned == PageResults(urls, fetch)
      ensures pageIndex == old(pageIndex) + FetchedCount(done, fetch)
      ensures processedPagesFile == AppendLines(old(processedPagesFile), LoggedPages(done, fetch))
    {
      var remaining := urls;
      returned := map[];
      done := [];
      assert urls - remaining == {};
      while remaining != {}
        invariant Enumerating(done, urls, remaining)
        invariant returned == PageResults(urls - remaining, fetch)
        invariant pageIndex == old(pageIndex) + FetchedCount(done, fetch)
        invariant processedPagesFile == AppendLines(old(processedPagesFile), LoggedPages(done, fetch))
        decreases remaining
      {
        var u :| u in remaining;
        ghost var logged := LoggedPages(done, fetch);
        ghost var logText := ProcessedLogText();
        assert logText == AppendLines(old(processedPagesFile), logged).GetOr("");
        var r := GetProductUrls(u, fetch(u));
        EnumeratingStep(done, urls, remaining, u);
        FetchedCountSnoc(done, u, fetch);
        PageResultsStep(urls, remaining, u, fetch);
        LoggedPagesSnoc(done, u, fetch);
        if Logged(fetch(u)) {
          AppendLinesSnoc(old(processedPagesFile), logged, u);
          assert processedPagesFile == Some(logText + u + "\n");
          assert LoggedPages(done + [u], fetch) == logged + [u];
        } else {
          assert LoggedPages(done + [u], fetch) == logged;
        }
        done := done + [u];
        returned := returned[u := Returned(r)];
        remaining := remaining - {u};
      }
    }

    /** `_save_product_to_inter_dataset`: bumps the product counter, then reads
        the dataset, records `data` under `url` and writes it back. */
    method SaveProductToInterDataset(url: string, data: FieldMap)
      requires Valid()
      modifies this`productIndex, this`interKeys, this`interData
      ensures Valid()
      ensures Inter() == Put(old(Inter()), url, data)
      ensures productIndex == old(productIndex) + 1
    {
      productIndex := productIndex + 1;
      if url !in interData {
        interKeys := interKeys + [url];
      }
      interData := interData[url := data];
    }

    /** `parse_product` for one product URL: saves its record and returns 1,
        returns 0 after a caught exception, and returns `None` for a status
        other than 200. */
    method ParseProduct(productUrl: string, fetch: ProductFetch) returns (r: Option<nat>)
      requires Valid()
      modifies this`productIndex, this`interKeys, this`interData
      ensures Valid()
      ensures r == ParseResult(fetch)
      ensures Saves(fetch) ==> Inter() == Put(old(Inter()), productUrl, ProductRecord(productUrl, fetch.extraction.fields))
      ensures Saves(fetch) ==> productIndex == old(productIndex) + 1
      ensures !Saves(fetch) ==> Inter() == old(Inter()) && productIndex == old(productIndex)
    {
      match fetch {
        case ProductFetchFailed =>
          r := Some(0);
        case ProductResponse(status, extraction) =>
          if status == 200 {
            match extraction {
              case ExtractionFailed =>
                r := Some(0);
              case Extracted(fields) =>
                var data := ProductRecord(productUrl, fields);
                SaveProductToInterDataset(productUrl, data);
                r := Some(1);
            }
          } else {
            r := None;
          }
      }
    }

    /** `scrape_products`: one task per product URL not yet in the dataset,
        launched in the set's iteration order (`order`) and taking effect in the
        order they complete (`done`), which is the order their records are
        appended to the dataset. Entries already present are left untouched.
        The batch total is `sum` of the results `gather` hands back in launch
        order, `None` for its `TypeError`. */
    method ScrapeProducts(productsUrls: seq<string>, fetch: string -> ProductFetch)
      returns (saved: Option<nat>, ghost order: seq<string>, ghost done: seq<string>)
      requires Valid()
      modifies this`productIndex, this`interKeys, this`interData
      ensures Valid()
      ensures Enumerates(order, Schedule(productsUrls, old(interData).Keys))
      ensures Enumerates(done, Schedule(productsUrls, old(interData).Keys))
      ensures Extends(old(Inter()), Inter(), SavedUrls(done, fetch), fetch)
      ensures interKeys == old(interKeys) + SavedUrls(done, fetch)
      ensures productIndex == old(productIndex) + |SavedUrls(done, fetch)|
      ensures saved == SumResults(ParseResults(order, fetch))
      ensures saved.Some? <==> forall u :: u in order ==> !FallsThrough(fetch(u))
      ensures saved.Some? ==> saved.value == |SavedUrls(done, fetch)|
    {
      var urls := Schedule(productsUrls, ProcessedProductUrls());
      var tasks := LaunchOrder(urls);
      order := tasks;
      var returned;
      returned, done := RunProductTasks(urls, fetch);
      GatherProducts(tasks, urls, fetch);
      var results := Gather(tasks, returned);
      saved := SumResults(results);
      BatchTotal(tasks, done, urls, fetch);
    }

    /** The `parse_product` tasks of one batch over URLs not in the dataset, each
        taking effect when it completes, in the order `done`; the result each
        returns, by URL. */
    method RunProductTasks(urls: set<string>, fetch: string -> ProductFetch)
      returns (returned: map<string, Option<nat>>, ghost done: seq<string>)
      requires Valid() && urls !! interData.Keys
      modifies this`productIndex, this`interKeys, this`interData
      ensures Valid()
      ensures Enumerates(done, urls)
      ensures returned == ProductResults(urls, fetch)
      ensures Extends(old(Inter()), Inter(), SavedUrls(done, fetch), fetch)
      ensures productIndex == old(productIndex) + |SavedUrls(done, fetch)|
    {
      var remaining := urls;
      returned := map[];
      done := [];
      assert urls - remaining == {};
      while remaining != {}
        invariant Enumerating(done, urls, remaining)
        invariant returned == ProductResults(urls - remaining, fetch)
        invariant Extends(old(Inter()), Inter(), SavedUrls(done, fetch), fetch)
        invariant productIndex == old(productIndex) + |SavedUrls(done, fetch)|
        decreases remaining
      {
        var u :| u in remaining;
        ghost var before := Inter();
        var r := ParseProduct(u, fetch(u));
        EnumeratingStep(done, urls, remaining, u);
        SavedUrlsSnoc(done, u, fetch);
        ProductResultsStep(urls, remaining, u, fetch);
        ExtendsStep(old(Inter()), before, Inter(), SavedUrls(done, fetch), SavedUrls(done + [u], fetch), fetch, u);
        done := done + [u];
        returned := returned[u := r];
        remaining := remaining - {u};
      }
    }

    /** `create_final_dataset`: rewrites `products.csv` as the header and one row
        per dataset entry in dataset order, stopping at the first entry with a key
        that is not a column (`ok` is false for that `ValueError`). */
    method CreateFinalDataset() returns (ok: bool)
      requires Valid()
      modifies this`finalDataset
      ensures finalDataset == Some(Table(Inter()))
      ensures ok <==> forall k :: k in interData ==> Writable(interData[k])
      ensures ok ==> |Table(Inter())| == |interKeys| + 1
    {
      ghost var d := Inter();
      ghost var es := Entries(d);
      finalDataset := Some([FieldNames]);
      assert [FieldNames] + RowsWritten(es)[..0] == [FieldNames];
      var i := 0;
      ok := true;
      while i < |interKeys|
        invariant 0 <= i <= |interKeys| && i <= |RowsWritten(es)|
        invariant finalDataset == Some([FieldNames] + RowsWritten(es)[..i])
      {
        var row := Row(interData[interKeys[i]]);
        if row.None? {
          ok := false;
          break;
        }
        WrittenPrefixGrows(es, i);
        RowWrittenAt(es, i);
        finalDataset := Some(finalDataset.value + [row.value]);
        i := i + 1;
      }
      if !ok && |RowsWritten(es)| > i {
        RowWrittenAt(es, i);
        assert false;
      }
      assert RowsWritten(es)[..i] == RowsWritten(es);
      AllRowsWritten(d);
    }
  }
}
