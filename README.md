# igefa store scraper — a verified model of its bookkeeping

`scraper.py` crawls the igefa online store in four stages, driven by the
`Scraper` class:

1. Each category page becomes a list of listing-page URLs.
2. Each listing page becomes a list of product URLs.
3. Each product page becomes a record in an intermediate JSON dataset.
4. That dataset becomes `products.csv`.

Between stages the scraper keeps line files:
- `pages_urls.txt`
- `pages_urls_processed.txt`
- `products_urls.txt`

It also keeps three progress counters.

This project models that bookkeeping in Dafny and proves what it guarantees. It covers:
- the page arithmetic and the listing URLs;
- the schedule of each batch, which skips what was already processed;
- the product URL template;
- how the results of a batch of concurrent tasks are fanned in;
- the read–update–rewrite of the intermediate dataset;
- the projection of that dataset to CSV rows;
- the line files the stages append to and read back.

What the network, the HTML parsers and the regular expressions deliver for a
URL is an input to the model. Each is one value per URL:
- `CategoryFetch` for a category page;
- `PageFetch` for a listing page;
- `ProductFetch` for a product page.

Files:

- `outcomes.dfy`: `Option` (a JSON null, a missing file) and `Outcome` (a task
  that returned a value or raised, as `gather(..., return_exceptions=True)` reports it).
- `text.dfy`: Python's `str.strip`, `readlines`, `'\n'.join` and `str(n)`, and
  the line-file round trips built on them.
- `pagination.dfy`: `get_page_urls`'s page count and listing URLs.
- `frontier.dfy`:
  - the batch schedule `set(pending) - set(processed)`;
  - the product URL template;
  - the fan-in of task results.
- `dataset.dfy`: the intermediate dataset as insertion-ordered keys plus a map,
  `put`, and the rows `csv.DictWriter` writes.
- `scraper.dfy`: the `Scraper` class. It has:
  - its counters;
  - the dataset;
  - its files, held as text, and `products.csv` held as rows;
  - one method per operation.

  Loops stay loops. Each batch iterates over a Python set. Set iteration order
  is unspecified, so the model picks the next element with `:|` and returns the
  order it took as a ghost out-parameter (`order`, the launch order). Every
  postcondition holds for every such order.

  A batch's tasks then take effect in the order they complete, which the
  network decides. Each task body changes shared state only after its last
  `await`. So a task's effects on the counters, the processed log and the
  dataset happen as one step when it completes. The model runs task
  bodies one at a time in a second, independent order (`done`), also chosen
  with `:|`. `gather` hands the results back in launch order.

## Model

| member | source | states |
|---|---|---|
| Pagination.PageCount | scraper.py:88 | The page count is 0 for a total of 0. For a positive total t it is the r with (r-1)*20 <= t < r*20. For a negative total it is at most 0. |
| Pagination.PageCountAgainstCeiling | scraper.py:88 | The count is one more than the pages actually needed exactly when the total is a positive multiple of 20. Otherwise it equals the ceiling. |
| Pagination.PageUrls | scraper.py:94-95 | Empty unless the page count is positive. Otherwise it has exactly page-count entries, and entry i is the category URL + "?page=" + str(i+1). |
| Pagination.PageUrlsDistinct | scraper.py:95 | No listing URL of a category appears twice. |
| Pagination.PageUrlsMembership | scraper.py:95 | A URL is listed if and only if it is the URL of a page k with 1 <= k <= page count. |
| Pagination.PageUrlInjective | scraper.py:95 | Two page URLs of one category are equal only for equal page numbers. |
| Pagination.PageUrl | scraper.py:95 | A listing URL is the category URL + "?page=", followed only by digits. |
| Text.DecimalString | scraper.py:95 | `str(n)` is a non-empty string of digits without a leading zero, except for 0 itself. |
| Pagination.PageUrlsOutcome | scraper.py:82-96 | The category task raises exactly when the request fails or the `__NEXT_DATA__` lookup fails other than by a missing key. A missing key returns []. A total returns that total's page URLs. |
| Text.DecimalRoundTrip | scraper.py:95 | Parsing `str(n)` gives n back. |
| Text.DecimalInjective | scraper.py:95 | Different page numbers render differently. |
| Scraping.Scraper.GetPageUrls | scraper.py:80-96 | Returns the category outcome above. The category counter advances by one exactly when it returns. |
| Scraping.Scraper.ScrapeCategories | scraper.py:66-78 | The result is the fan-in of the category outcomes in category order. The counter advances once per returning task. `pages_urls.txt` is replaced by the '\n'-join of the result, and when every URL is clean and non-empty, reading it back (scraper.py:220-222) gives exactly the result. |
| Scraping.PagesFileRoundTrip | scraper.py:74-76 | Reading `pages_urls.txt` back (scraper.py:220-222) gives the written list, when every URL is non-empty with no line break and no surrounding whitespace. |
| Frontier.AsSetSize | scraper.py:99 | `set(s)` has at most as many elements as s. |
| Frontier.Schedule | scraper.py:99 | A URL is scheduled if and only if it is pending and not processed. Duplicates collapse, so there are at most as many tasks as pending entries. |
| Frontier.ScheduleMore | scraper.py:99 | Marking more URLs processed removes exactly those URLs from the schedule. |
| Frontier.ScheduleAfterLogging | scraper.py:99 | Logging one clean page to a well-formed log removes exactly that page from the next schedule over the same pending list (log format at scraper.py:205-218). |
| Frontier.ResumeSkipsLogged | scraper.py:99 | After any number of pages are logged, a rerun over the same pending list schedules the earlier schedule minus exactly those pages, whether or not the log existed (log format at scraper.py:205-218). |
| Scraping.EnumeratingStep | scraper.py:101 | Each iteration over the scheduled set visits a new element. Once the set is exhausted, the order visited lists every scheduled URL exactly once. |
| Frontier.ItemUrlRoundTrip | scraper.py:127 | The (id, slug) capture can be recovered from the product URL built from it, when the slug has no '/'. |
| Frontier.ItemUrlInjective | scraper.py:127 | Different captures give different product URLs, when slugs have no '/'. |
| Frontier.ItemUrl | scraper.py:127 | Every product URL starts with `BASE_URL + "/p/"` and ends in '/'. |
| Scraping.ProductUrlsOf | scraper.py:115-133 | A failed request gives []. Otherwise there is one URL per capture, in capture order, each `BASE_URL/p/<slug>/<id>/`. |
| Scraping.Scraper.GetProductUrls | scraper.py:114-133 | Returns the URLs above. The page counter advances exactly when the page was read. The page is appended to the processed log exactly when there is at least one capture, and the log is otherwise unchanged. |
| Frontier.Flatten | scraper.py:74 | The fan-in's length is the total length of the returned lists. No tasks give no URLs. |
| Frontier.FlattenAppend | scraper.py:108 | The fan-in of two runs of tasks is the concatenation of their fan-ins, so task order is kept. |
| Frontier.FlattenMembership | scraper.py:108 | A URL is in the fan-in if and only if some task returned a list containing it. |
| Frontier.FlattenAllRaised | scraper.py:74 | Tasks that all raised contribute nothing. |
| Scraping.Scraper.ScrapePages | scraper.py:98-112 | Every scheduled page gets exactly one task. The result is the fan-in of the URL lists in launch order. The page counter advances once per page read. `products_urls.txt` gets the '\n'-join of the result appended. For clean URLs, reading it back (scraper.py:224-226) gives the old lines then the result when the old file was missing or ended in a newline. Otherwise the old last line is glued to the first new URL, and a non-empty batch always leaves the file without a final newline. |
| Scraping.Scraper.RunPageTasks | scraper.py:114-133 | The page tasks take effect one at a time, in a completion order that lists every scheduled page once. Each returns its page's URL list. The counter counts the pages read, and the pages with captures are appended to the processed log in completion order. |
| Scraping.LaunchOrder | scraper.py:100-105 | One task is launched per element of the scheduled set: the launch order lists each element exactly once. |
| Frontier.Gather | scraper.py:107 | `gather` returns one result per task, in launch order, each the result of that task. |
| Scraping.GatherPages | scraper.py:107-108 | Gathering a page batch gives the outcomes of its pages in launch order, whatever order they completed in. |
| Text.Strip | scraper.py:208 | The stripped line has no whitespace at either end, and it is the infix of the line that leaves only whitespace before and after it. Together these determine `str.strip`. |
| Text.StripLeft | scraper.py:208 | Removes exactly the leading whitespace: a suffix of the line whose first character is not whitespace, with only whitespace before it. |
| Text.StripRight | scraper.py:208 | Removes exactly the trailing whitespace: a prefix of the line whose last character is not whitespace, with only whitespace after it. |
| Text.StripFixesExactlyUnpadded | scraper.py:208 | Stripping leaves a line unchanged if and only if it has no surrounding whitespace. |
| Text.SplitLinesConcat | scraper.py:208 | `readlines` loses nothing: its lines concatenate back to the file. |
| Text.SplitLinesAppend | scraper.py:208 | The lines of a newline-terminated file followed by more text are its lines followed by the new text's lines. |
| Text.SplitLines | scraper.py:208 | `readlines` gives no lines for an empty file and never an empty line. |
| Text.ReadLines | scraper.py:208 | One stripped line per line of the file, none with whitespace at either end. |
| Text.ReadLinesOrEmpty | scraper.py:205-210 | A missing log reads as no URLs, and an existing one as its stripped lines. |
| Scraping.Scraper.ProcessedPageUrls | scraper.py:205-210 | A missing processed-pages log gives the empty list. |
| Text.ReadAppendLine | scraper.py:216-218 | Appending one clean URL plus '\n' to a well-formed log reads back as the old list followed by that URL, and the log stays well formed. |
| Text.ReadAppendedLines | scraper.py:216-218 | Appending several clean URLs one line at a time reads back as the old list followed by them, in order. |
| Text.Terminated | scraper.py:217-218 | Writing each URL plus '\n' leaves a newline-terminated file, empty exactly when there are no URLs. |
| Text.AppendLines | scraper.py:216-218 | The log exists afterwards exactly when it existed or something was appended, and appending never changes what was already there. |
| Text.Join | scraper.py:110 | `'\n'.join` of no URLs is "", and of some URLs it is the line-per-line encoding without its final '\n'. |
| Text.AppendLinesReadBack | scraper.py:205-218 | The same holds starting from a missing log. |
| Text.StripTerminatedLine | scraper.py:208 | A clean URL written with its newline strips back to itself. |
| Scraping.Scraper.SaveProcessedPageUrl | scraper.py:216-218 | The log becomes the old log (or "") + the URL + "\n". On a well-formed log and a clean URL, the URLs read back are the old ones followed by this one. |
| Text.ReadJoinedBatch | scraper.py:109-110 | One '\n'-joined batch appended to a well-formed file reads back intact, but leaves the file without a final newline. |
| Text.JoinedAppendsGlue | scraper.py:109-110 | A second joined batch is glued onto the last line of the first, so two one-URL batches read back as one line x+y, not as x and y. |
| Text.ReadJoinedAfterPartialLine | scraper.py:109-110 | A joined batch appended to a file without a final newline changes only the file's last line, which becomes that line glued to the batch's first URL. The other URLs follow. |
| Text.GluedLines | scraper.py:109-110 | The glued read-back holds the complete old lines, then one glued line, then the rest of the batch: as many lines as the complete old lines plus the batch. |
| Scraping.BatchReadBack | scraper.py:109-110 | For clean URLs appended with `'\n'.join`: the read-back is the old lines plus the batch when the file was empty or newline-terminated, and the glued lines otherwise. A non-empty batch leaves the file without a final newline. |
| Text.ReadJoin | scraper.py:75-76 | A join of clean non-empty URLs, alone in a file, reads back as exactly those URLs. |
| Text.TerminatedAppendsSeparate | scraper.py:216-218 | When each URL is written as the URL + '\n', the encoding the processed log uses, appending x and then y to a well-formed file reads back as the old lines followed by x and y, two separate lines. |
| Scraping.Scraper.ProductUrlsFromFile | scraper.py:224-226 | There is a list exactly when `products_urls.txt` exists, and it is the file's lines, stripped. A missing file is the uncaught FileNotFoundError. What the list holds after a batch is stated by ScrapePages. |
| Scraping.Scraper.PagesUrlsFromFile | scraper.py:220-222 | There is a list exactly when `pages_urls.txt` exists, and it is the file's lines, stripped. A missing file is the uncaught FileNotFoundError. What the list holds after ScrapeCategories is stated there. |
| Dataset.FieldNamesDistinct | scraper.py:24-37 | There are twelve column names, and they are pairwise distinct. |
| Dataset.ProductRecord | scraper.py:182-195 | The record has exactly the twelve columns as keys. The supplier is the fixed "igefa Handelsgesellschaft", the Supplier-URL is the product URL, and the image URL and breadcrumb come from the page. |
| Dataset.Put | scraper.py:235-237 | The URL maps to the new data. Every other key keeps its presence, value and position. The key count grows by one exactly when the URL was new, and a new URL goes last. The dataset stays a well-formed JSON object. |
| Dataset.PutIdempotent | scraper.py:236 | Repeating a save changes nothing. |
| Dataset.PutOverwrites | scraper.py:236 | A later save of the same URL replaces the earlier one in place. |
| Scraping.Scraper.SaveProductToInterDataset | scraper.py:228-237 | The dataset becomes the `put` of the URL and data, it stays well formed, and the product counter advances by exactly one. |
| Scraping.Scraper.ProcessedProductUrls | scraper.py:212-214 | The processed product URLs are exactly the dataset's keys. |
| Scraping.ParseResult | scraper.py:148-203 | The result is 1 exactly when the page was read with status 200 and the fields were extracted. It is None exactly when the status is not 200. It is 0 otherwise (request or extraction failure). |
| Scraping.Scraper.ParseProduct | scraper.py:148-203 | Returns that result. It saves the product's record under its URL and advances the counter exactly when the result is 1. Otherwise it leaves the dataset and the counter alone. |
| Scraping.ExtendsPut | scraper.py:228-237 | Saving the record of one more product that is not in the dataset yet keeps every earlier entry and appends that product with its record. |
| Scraping.ExtendsStep | scraper.py:148-203 | Parsing one more unprocessed product keeps the dataset an extension of the one before the batch: the record is appended when the product is saved, and nothing changes otherwise. |
| Scraping.SumCountsSaves | scraper.py:145 | `sum(results)` is defined if and only if no product page came back with a status other than 200. When defined, it equals the number of products saved. |
| Scraping.SumResults | scraper.py:145 | `sum` is defined exactly when no result is None. |
| Scraping.SumFailsOnNone | scraper.py:145 | Concretely, `sum([1, None, 0])` fails while `sum([1, 0, 1])` is 2. |
| Scraping.Scraper.ScrapeProducts | scraper.py:135-146 | Every unprocessed URL gets exactly one task. Earlier entries are untouched, and the saved products are appended with their records in completion order. The counter advances once per save. The total is `sum` of the results in launch order. It is defined exactly when no status other than 200 occurred, and then it equals the number of saves. |
| Scraping.Scraper.RunProductTasks | scraper.py:148-203 | The product tasks take effect one at a time, in a completion order that lists every scheduled URL once. Each returns its `parse_product` result. The dataset is extended by the saves in that order, and the counter counts them. |
| Scraping.GatherProducts | scraper.py:144 | Gathering a product batch gives the results of its URLs in launch order. |
| Scraping.BatchTotal | scraper.py:144-145 | `sum` over the results in launch order is defined exactly when no page fell through. Then it equals the number of products saved in completion order. |
| Scraping.SavedCountAnyOrder | scraper.py:145 | Two orders over the same set of URLs save the same number of products. |
| Scraping.IntendedSumCountsSaves | scraper.py:145-152 | With a non-200 page counted as 0, the total is always defined, equals the number of products saved, and agrees with the written total wherever that is defined. |
| Dataset.Entries | scraper.py:249 | The dataset's values come in key order. |
| Dataset.Row | scraper.py:250 | A row is written exactly when every key of the entry is a column. It has one cell per column. |
| Dataset.RowRoundTrip | scraper.py:247-250 | A complete record without nulls reads back from its row under the header as the same record. |
| Dataset.ProductRowCells | scraper.py:190-191 | Every saved record can be written, with the supplier in column 8 and the product URL in column 9. |
| Dataset.RowsWritten | scraper.py:249-250 | At most one row is written per entry. Writing stops early only at an entry whose row is rejected. |
| Dataset.RowWrittenAt | scraper.py:249-250 | Rows are written in entry order: the i-th row written is the row of the i-th entry. |
| Dataset.RowsWrittenReaches | scraper.py:249-250 | Every entry before the first rejected one gets its row. |
| Dataset.RowsWrittenStopsAt | scraper.py:249-250 | The number of rows written is exactly the position of the first rejected entry, or the number of entries. |
| Dataset.AllRowsWritten | scraper.py:249-250 | Every entry gets a row if and only if every entry's keys are all columns. |
| Dataset.TableCell | scraper.py:246-250 | Each written cell of `products.csv` is its entry's value for that column, in dataset order below the header. |
| Dataset.Cell | scraper.py:250 | A cell is blank exactly when its key is missing, its value is null, or its value is "". |
| Dataset.Table | scraper.py:246-248 | The first row of `products.csv` is the column header. |
| Dataset.TableComplete | scraper.py:240-250 | When every key is a column, there is one row per entry, in dataset order. Each cell is that entry's value for the column, with "" for a missing key or a null. |
| Scraping.Scraper.CreateFinalDataset | scraper.py:240-250 | `products.csv` becomes the header plus the rows written. It completes exactly when every entry's keys are all columns, and then it has one row per entry. |
| Scraping.Scraper.constructor | scraper.py:40-49 | The counters start at 0. A missing intermediate dataset is created empty, and an existing one is taken as found. |

## Left out

- Network access is left out: `aiohttp` sessions, `session.get`, response text and status. Each URL's outcome is a parameter instead (`CategoryFetch`, `PageFetch`, `ProductFetch`).
- `asyncio` scheduling is left out: `create_task`, the `DELAY` sleeps and the event loop itself. Completion order is an arbitrary order, chosen per batch. Each task body is modelled as one step at completion, which is exact because no task touches shared state before its last `await`.
- Foreign parsers are oracles inside the fetch values: BeautifulSoup, `slugify`, the `"mainVariant"` regular expression, the `__NEXT_DATA__` JSON lookup and `xmltodict`. They supply a total, a list of captures or the extracted fields.
- `scrape_categories`'s sitemap request and parse are left out. The method starts from the list of category URLs.
- JSON and CSV text formatting is left out (indentation, quoting, escaping, encodings). The intermediate dataset is held as ordered keys plus a map, and `products.csv` as a list of rows.
- I/O failures other than a missing file are left out: permissions, a full disk, a corrupt JSON file.
- `print`, `time()`, `run` and the `__main__` entry point are left out. They only log and sequence the stages.
- `get_value` is left out. It belongs to field extraction, which is an oracle here.
- Python's universal-newline translation on reading is left out. Every round-trip lemma requires lines with neither '\n' nor '\r'.
- A `__NEXT_DATA__` total that is JSON null is modelled as `Total(0)`, since both are falsy. A total that is not an integer (float, string) is not modelled.
- Pagination.PageCount: the page count follows the code (`total // 20 + 1`), not a ceiling. On exact multiples of 20 it requests one extra, empty listing page. `PageCountAgainstCeiling` states the difference.
- Scraping.Scraper.ScrapeCategories: a `None` category URL from a sitemap entry without `loc` is not modelled. Category URLs are strings.

## Findings

| source | as written | input that shows it | evidently intended | confidence | as-written member | corrected member |
|---|---|---|---|---|---|---|
| scraper.py:109-110 | each batch is appended to `products_urls.txt` as `'\n'.join(product_urls)` with no final newline | two runs of `scrape_pages` that each find one product URL, x then y: the file holds x+y on one line and `_get_product_urls_from_file` returns [x+y] | one line per URL across batches, as `_save_processed_page_url` does for the processed log | high (not executed) | Text.JoinedAppendsGlue | Text.TerminatedAppendsSeparate |
| scraper.py:145-152 | `parse_product` returns nothing, i.e. None, when the status is not 200, and `sum(results)` then raises TypeError | a batch with one product page answered with 404: results contain None and `scrape_products` raises instead of returning the count | a non-200 page counts as 0, like every other failure | high (not executed) | Scraping.SumCountsSaves | Scraping.IntendedSumCountsSaves |
