# milanuncios-scrapper, modelled in Dafny

This project models the scraping core of milanuncios-scrapper. That tool opens
the motor section of milanuncios.com in a headless browser. It blocks
advertising and tracking requests and scrolls each results page until the
page stops growing. It then reads every ad card into a record and walks the
result pages until the last page, the announced total, or too many
consecutive failures. A single-page scrape is tried up to three times (retried at most twice).

The browser is an oracle throughout. Whatever a `page.evaluate`, a
`querySelector`, a click or a navigation would observe is a parameter of the
model. Examples are the text of a selector's first match, the metrics of a
scroll tick, whether a click throws, and the page reached after a
navigation. The code around those observations is modelled as the source
writes it:

- the text handling: `trim`, `parseInt`, the `anuncios?` regular expression,
  and the id and `pagina=` regular expressions;
- the selector fallbacks and the retry loops;
- the page loop.

The id pattern is `/\/(\d+)\.htm/` as dataExtractor.js:258 writes it: its dot is escaped and matches only a literal '.'.

Modules, one per source file, plus shared text helpers:

| module | file | models |
|---|---|---|
| `JsText`, `Wrappers` | — | `String.prototype.trim`, `includes`, `parseInt` and decimal rendering, on `seq<char>`; an `Option` type |
| `CountText` | pagination.js, dataExtractor.js | the count pattern `/(\d+(?:\.\d+)?)\s*anuncios?/i` and the dot-removing `parseInt` after it |
| `UrlBuilder` | urlBuilder.js | `buildUrl`: the base URL plus `URLSearchParams` form encoding, with a parser as its inverse |
| `RequestFilter` | requestInterceptor.js, scrap.js | the abort/continue rule |
| `PageScroller` | pageScroller.js | the scroll timer (a class with the closure's variables as fields), the "load more" button, the element count |
| `Listing` | dataExtractor.js | the record an ad card becomes, and the page result (records or an error object) |
| `DataExtractor` | dataExtractor.js | the total count, the article selector choice and per-card extraction |
| `Scrape` | scrap.js | the three-attempt retry of `scrapeMilanuncios` |
| `Pagination` | pagination.js | the total-listings lookup, the page count, the page checks and `goToNextPage` |
| `PaginationLoop` | pagination.js | `scrapWithPagination`'s loop, as written and corrected |

## Model

| member | source | states |
|---|---|---|
| CountText.ParseCount | pagination.js:34-41 | a count is read exactly when the text holds a numeral followed by optional spaces and "anuncio" or "anuncios" in any case |
| CountText.ParseCountIsParseInt | pagination.js:38 | the count equals `parseInt` of the captured numeral with its dots removed |
| CountText.ParseCountOfNumeral | dataExtractor.js:17-19 | "N anuncios" with N in decimal reads back as N |
| CountText.SeparatedCount | dataExtractor.js:17-19 | "X.Y anuncios" reads as the number written XY, so a thousands dot is dropped |
| CountText.SingularCount | dataExtractor.js:17 | the singular, capitalised "X Anuncio" also matches (the `s?` and the `i` flag) |
| CountText.TwoSeparatorsCapture | dataExtractor.js:17 | with two dots, "X.Y.Z anuncios" captures only "Y.Z": the leftmost match has at most one dot group |
| CountText.OnlyOneSeparatorGroup | dataExtractor.js:17-19 | "X.Y.Z anuncios" reads as YZ, not XYZ |
| CountText.FirstWhereSkips | pagination.js:37 | the match is the leftmost one: positions without a match are skipped |
| CountText.CountCaptureOfMatch | pagination.js:36-37 | the capture is that of a match starting in the text, and there is none only when no position starts a match |
| CountText.SeparatedCapture | pagination.js:36-37 | "X.Y anuncios" with digit runs X and Y captures "X.Y", the optional dot group included |
| CountText.DigitsMention | pagination.js:50 | a run of digits followed by " anuncios" passes the page-wide test `/\d+\s*anuncios/i` |
| CountText.PluralMentionMatches | pagination.js:50-58 | wherever the page-wide test matches, the count pattern matches too |
| CountText.MentionYieldsCount | pagination.js:50-60 | a text the page-wide search accepts, with a numeral before "anuncios", always yields a count |
| UrlBuilder.BuildUrl | urlBuilder.js:2-9 | the URL is the base URL alone iff there are no parameters; otherwise "?" and the form-encoded pairs, which parse back to the UTF-8 bytes of every key and value in order |
| UrlBuilder.DecodeEncoded | urlBuilder.js:6 | decoding the form encoding of any byte string gives it back |
| UrlBuilder.SplitJoin | urlBuilder.js:8 | splitting the `&`-joined pairs at `&` gives the pairs back |
| UrlBuilder.ParsePairText | urlBuilder.js:5-6 | one serialised `name=value` pair parses back to the UTF-8 bytes of its name and value |
| UrlBuilder.ParseSerialized | urlBuilder.js:5-8 | the serialised query parses back to the UTF-8 key/value pairs |
| UrlBuilder.SpaceAsPlus | urlBuilder.js:6 | a space is serialised as "+" and a literal "+" as "%2B" |
| RequestFilter.HandleRequest | requestInterceptor.js:10-24 | a request is aborted iff it is media, a third-party image, or its URL names a blocked fragment; otherwise it continues |
| RequestFilter.BlockedIsShouldBlock | requestInterceptor.js:10-19 | the nine-clause condition equals the three-part rule, both ways |
| RequestFilter.GoogleAnalyticsSubsumed | requestInterceptor.js:14 | the "google-analytics" clause is implied by the "analytics" clause |
| RequestFilter.MediaAborted | requestInterceptor.js:12 | media is aborted whatever its URL |
| RequestFilter.ImageExemption | requestInterceptor.js:11 | a site image continues iff its URL names no blocked fragment |
| RequestFilter.SiteTrackerImageAborted | requestInterceptor.js:18 | a milanuncios.com image under /tracker/ is still aborted |
| RequestFilter.PlainDocumentContinues | requestInterceptor.js:23 | a document with no blocked fragment continues |
| PageScroller.ScrollSession.constructor | pageScroller.js:24-28 | the scroll starts with no height scrolled, no height seen and no unchanged ticks |
| PageScroller.ScrollSession.Step | pageScroller.js:32-61 | each tick adds 300 to the total; it stops at the bottom; an unchanged height adds one unchanged tick and a changed one resets the count and records the height; it settles iff five unchanged ticks are reached |
| PageScroller.ScrollToEnd | pageScroller.js:19-66 | the timer stops at the first tick that is at the bottom or settled, or keeps scrolling if none is; the scrolled height is 300 per tick run |
| PageScroller.SettledIffFiveUnchanged | pageScroller.js:45-54 | the scroll settles at tick k iff the five ticks ending at k saw an unchanged height |
| PageScroller.SettlingTakesSixTicks | pageScroller.js:27-29 | since the last height starts at 0, a page of non-zero height settles no earlier than the sixth tick |
| PageScroller.RunAtLeast | pageScroller.js:45-60 | the run of unchanged ticks is at least r iff the last r ticks were all unchanged |
| PageScroller.FindLoadMore | pageScroller.js:110-123 | the first selector with a visible, enabled button or link is chosen; none is found iff no selector has one |
| PageScroller.ClickWithRetry | pageScroller.js:132-145 | there are 1 to 3 clicks; it succeeds iff one of the first three clicks succeeds; on success the last click is the one that worked and all before it failed |
| PageScroller.TryClickLoadMore | pageScroller.js:97-167 | true iff the search does not throw, a button is found, a click succeeds and the scroll after it does not throw; a throwing search clicks nothing |
| PageScroller.VisibleCount | pageScroller.js:194-197 | the count of visible elements is zero iff none is visible |
| PageScroller.CountVisibleElements | pageScroller.js:174-213 | 0 if the evaluation throws, else the largest visible count over the eight selectors |
| PageScroller.ExhaustiveScroll | pageScroller.js:10-90 | false iff scrolling throws; it does not return iff the timer never stops |
| DataExtractor.ExtractTotalCount | dataExtractor.js:10-28 | -1 unless the summary element's trimmed text matches the count pattern; otherwise the captured count |
| DataExtractor.TotalCountOfNumeral | dataExtractor.js:14-19 | the summary "N anuncios" gives N |
| DataExtractor.ChooseArticleSelector | dataExtractor.js:47-77 | the selector kept finds at least as many articles as the primary one, and the reported count is that selector's count |
| DataExtractor.PriceText | dataExtractor.js:109-118 | a price whose first line, with "€" removed and trimmed, is a number becomes that line plus " €"; another text is kept up to its first line only if it has a "€"; otherwise it is rejected |
| DataExtractor.PriceStable | dataExtractor.js:109-118 | normalising an already normalised price changes nothing |
| DataExtractor.NonPriceSkipped | dataExtractor.js:109-118 | a non-empty text with no "€" that is not a number is rejected as a price, so the search goes on with the next selector |
| DataExtractor.LocationText | dataExtractor.js:119-125 | a location is its first line, trimmed |
| DataExtractor.FirstAnswerFirst | dataExtractor.js:102-132 | the selector loop gives the answer of the first selector answered, in order, and "" when none is |
| DataExtractor.GetTextFirst | dataExtractor.js:100-133 | "" when no selector gives an accepted text; otherwise the first accepted text in selector order |
| DataExtractor.CardFields | dataExtractor.js:180-183 | title, price, location and description are never empty: each falls back to its placeholder; the title is "Artículo N" or the found title |
| DataExtractor.FilterDetails | dataExtractor.js:186-203 | the details are the trimmed texts the filter accepts, each once, first occurrence kept |
| DataExtractor.KeptDetailsSound | dataExtractor.js:186-200 | every kept detail passes the filter, none is kept twice, and a text is kept iff some element yields it and it passes |
| DataExtractor.KeptInOrder | dataExtractor.js:186-200 | the kept details appear in the order of the page, at increasing positions |
| DataExtractor.ArticleUrl | dataExtractor.js:206-225 | the assignments give the title link's href, else any link's, else ""; an href not starting with "http" is resolved against the origin, and kept when resolution throws |
| DataExtractor.ImageUrl | dataExtractor.js:227-248 | the assignments give the image url the card's source calls for: "" without a source; "//x" becomes "https://x"; another non-http source becomes the lazy source or its resolution; "http://" is upgraded to "https://"; the result never starts with "http://" |
| DataExtractor.UrlId | dataExtractor.js:258-261 | the id taken from the URL is all digits and absent for an empty URL |
| DataExtractor.NoShorterHtmCapture | dataExtractor.js:258 | `\d+` never gives back digits for `\.htm`: no shorter capture ends before a '.' |
| DataExtractor.LiteralDotOnly | dataExtractor.js:258 | the dot of `\.htm` is literal: "/12/htm" yields no id, "/12.htm" yields "12" |
| DataExtractor.ArticleId | dataExtractor.js:251-268 | the assignments give the data-id, else the element id, else the URL id, else the title fallback; never empty |
| DataExtractor.FirstMatchLeftmost | dataExtractor.js:258 | `match` finds the leftmost match: no earlier position matches, and no match is found only when no position matches |
| DataExtractor.FirstMatchIs | dataExtractor.js:258 | a match at q with none before it is the one found |
| DataExtractor.HtmIdOfListingUrl | dataExtractor.js:258 | a listing URL ".../D.htm..." gives D |
| DataExtractor.FallbackIdsDistinct | dataExtractor.js:264-267 | fallback ids of cards at different positions differ |
| DataExtractor.ExtractCard | dataExtractor.js:97-300 | a card that throws becomes an error record with id "error_N"; any other becomes an ad whose fields, details, url, image url, id and date are exactly those the card calls for, with a non-empty id and no "http://" image |
| DataExtractor.ExtractListings | dataExtractor.js:97-301 | one record per card, in order; the error records are exactly the cards that threw |
| DataExtractor.ExtractData | dataExtractor.js:37-322 | a general failure, no articles and a failed evaluation each give their error object; otherwise the items are, in order, the record of each article of the chosen selector |
| Scrape.FinalErrorMessage | scrap.js:204 | the final error is "Error después de 3 intentos: " plus the last message |
| Scrape.ScrapeMilanuncios | scrap.js:26-212 | 1 to 3 attempts; every attempt but the last was retried and closed its browser; the last decides the result: data, a partial error, the wrapped error, or the unwrapped rejection of the catch block's `browser.close()`; a rejected close after extraction sends the attempt to the catch block; waits are the linear delays; every launched browser is closed unless that last close rejects |
| Scrape.ExtractedThenCloseRejects | scrap.js:169-198 | an attempt that extracted good data is retried when its close rejects, and its error escapes when the second close rejects too |
| Scrape.DelaysAreLinear | scrap.js:208-210 | the waits are 5 s then 10 s, strictly increasing; there is one per attempt iff every attempt reached the catch block |
| Scrape.DelaysBelow | scrap.js:208 | every wait before attempt n is shorter than attempt n's delay |
| Pagination.SelectorStageSound | pagination.js:28-42 | a counted scan took its number from a selector whose text holds the count pattern, parsed as the code parses it; a scan ends rejected only when rejected selectors are not skipped |
| Pagination.ScanSelectors | pagination.js:28-42 | the selector loop ends in the stage the selector scan defines |
| Pagination.FirstMention | pagination.js:48-55 | the page-wide search takes the first text that contains "anuncios" after a numeral; none means no such text |
| Pagination.SearchPage | pagination.js:46-55 | the element loop returns the first text that passes the test, "" when none does |
| Pagination.NumeralMentions | pagination.js:50 | a page reading "N anuncios" passes the page-wide test |
| Pagination.TotalAfter | pagination.js:44-76 | the total is -1 or positive; a rejected selector gives -1; a positive count from a selector is returned as is |
| Pagination.FinishTotal | pagination.js:44-72 | after the selector loop, the page-wide search and the sign test give the total the stage defines |
| Pagination.PageCount | pagination.js:45-72 | the page-wide search ends in -1 or a positive count, never 0 or a negative one |
| Pagination.GetTotalListings | pagination.js:14-77 | the total announced on the page, -1 when unknown, as the code is written |
| Pagination.SelectorCountDecides | pagination.js:36-39 | a selector that yields a positive count decides the total |
| Pagination.StageSkips | pagination.js:28-42 | selectors with neither a count nor a rejection are passed over |
| Pagination.RejectedSelectorHidesPageText | pagination.js:17-22 | when the first three selectors give no count, the fourth rejects its selector and the total is -1, whatever the page says |
| Pagination.GetTotalListingsSkippingRejected | pagination.js:14-77 | with the invalid selector passed over, the total is -1 or positive and follows the stage scan |
| Pagination.SkippingRejectedReadsPageText | pagination.js:45-63 | when rejected selectors are passed over, a page reading "N anuncios" gives N |
| Pagination.AnnouncedTotalLost | pagination.js:21 | a page reading "1234 anuncios" with no summary element gives -1 as written and 1234 when the selector is passed over |
| Pagination.Largest | pagination.js:151-156 | the largest page number is one of the numbers and no smaller than any |
| Pagination.PageNumbersRead | pagination.js:132-147 | a number is collected iff some button's trimmed text parses to it |
| Pagination.CollectPageNumbers | pagination.js:136-146 | the loop collects exactly those numbers, in button order |
| Pagination.GetMaxPages | pagination.js:84-165 | 10 on an exception; the number after the divider when one parses to non-zero; else the largest button number; else 10 |
| Pagination.IsMaxPagesUnique | pagination.js:84-165 | the page count `getMaxPages` settles on is unique for the given pager observation |
| Pagination.IsResultPage | pagination.js:172-191 | a result page has listings, or both a summary and a pager; a failed evaluation is not one |
| Pagination.ActiveLabelAt | pagination.js:204-214 | the number's label is active iff the first button carrying it is marked active |
| Pagination.IsPageNumberActive | pagination.js:199-218 | the loop answers exactly whether the number's label is active, so true iff the first button labelled with the number is marked active |
| Pagination.FirstLabelDecides | pagination.js:204-214 | once the first button with the label is marked active, buttons added after it do not change the answer |
| Pagination.EnabledLabelAt | pagination.js:242-246 | a caption has an enabled button iff some button carries it and is not disabled |
| Pagination.HasEnabledButton | pagination.js:240-248 | the loop answers exactly whether the caption has an enabled button, so true iff some enabled button carries it |
| Pagination.FirstPageParam | pagination.js:343 | the leftmost `pagina=` followed by a digit is found, and none before it |
| Pagination.NextPageUrl | pagination.js:341-348 | without a `pagina=` parameter the URL is extended; with `pagina=` but no digits after it, the URL is unchanged |
| Pagination.ReplacedParam | pagination.js:343 | replacing the digits after the first `pagina=` keeps that parameter first, puts n's digits there and leaves the text before it alone |
| Pagination.AppendedParam | pagination.js:346-347 | a URL without `pagina=` gets `&` or `?` and `pagina=n`, which becomes its first page parameter, at the end |
| Pagination.NamesPageAt | pagination.js:341-348 | a URL whose first page parameter spells n names page n and contains `pagina=n` |
| Pagination.NextPageUrlNamesPage | pagination.js:341-348 | the next-page URL carries `pagina=n` as its first page parameter |
| Pagination.LaterPagePassesUrlTest | pagination.js:275 | the URL test after a click is a substring test: an address on page 23 passes the test for page 2 |
| Pagination.GoToNextPage | pagination.js:226-398 | success iff the number button, the ">" button or the direct URL reaches the next page, and then the page is one more; the URL is tried only after both buttons fail; the promise rejects iff an exception is caught and the catch's screenshot rejects too |
| PaginationLoop.StepStops | pagination.js:472-528 | a pass stops at the last page, at the total, after a failed navigation from an empty page, at two consecutive failures, and when `goToNextPage` rejects, which escapes exactly when the pass navigates |
| PaginationLoop.Step | pagination.js:472-528 | a pass counts itself, appends exactly the page's items, and either stays on the page or moves one page on without stopping; an escape ends the loop |
| PaginationLoop.Run | pagination.js:460-529 | the passes run are at most the rounds supplied, all of them unless the loop stopped, and a stopped loop stays as it is |
| PaginationLoop.Pass | pagination.js:472-528 | the loop body as written changes the data, page, failures, end flag and escape as one pass of the reset-on-data loop does |
| PaginationLoop.PassCorrected | pagination.js:472-528 | the corrected loop body changes them as one pass of the reset-on-progress loop does |
| PaginationLoop.PageLoop | pagination.js:460-529 | the loop's data, page, end and escape are those of the passes the rounds drive |
| PaginationLoop.EscapeLosesCollected | pagination.js:540-544 | an ad collected before a rejecting navigation is lost: `[]` is returned |
| PaginationLoop.RunCollects | pagination.js:474 | the data collected is the concatenation of the items of the pages passed, in order |
| PaginationLoop.StepLowersTotalPotential | pagination.js:474-509 | with a known total, each pass that does not stop lowers the listings still missing or raises the failures |
| PaginationLoop.TotalKnownStopsFrom | pagination.js:490-494 | from any running state with a known total, enough passes to cover the missing listings and failures stop the loop |
| PaginationLoop.TotalKnownStops | pagination.js:490-494 | with a known total, the loop stops within 2·total+2 passes |
| PaginationLoop.StuckLoopNeverEnds | pagination.js:475 | with no known total, pages with data and navigation that throws, the loop never stops and stays on page 1 |
| PaginationLoop.CollectedRepeats | pagination.js:474 | n pages holding the same ad collect it n times |
| PaginationLoop.StuckScrapeCollectsDuplicates | pagination.js:474-475 | n such passes collect the same ad n times |
| PaginationLoop.StepLowersPagePotential | pagination.js:497-509 | with the counter reset only on progress, every pass moves a page on or counts a failure |
| PaginationLoop.PageLoopCorrected | pagination.js:460-529 | the corrected loop stops within 3·(maxPages-1)+2 passes for every supply of rounds whose scrolls resolve, and collects what those passes gave |
| PaginationLoop.ScrapWithPagination | pagination.js:444-545 | the total, the page count `getMaxPages` settles on, and the loop, composed as written; the data collected, or `[]` after an escape |
| PaginationLoop.ScrapWithPaginationCorrected | pagination.js:444-545 | the composition with both corrections, under the page count `getMaxPages` settles on, ends within the pass bound, returning the data collected, or `[]` after an escape |

## Left out

- The browser itself is not modelled: DOM queries, clicks, `page.goto` and `waitForNavigation` are inputs. So are `sleep`, the `setInterval` timing and screenshots.
- `checkForCaptcha`, `solveCaptcha`, `getRandomUserAgent` and the utilities are not modelled. Neither are browserSetup.js, screenshotManager.js, cookieHandler.js, server.js and test.js. They set up the browser, keep files or serve HTTP, and none is part of the scraping logic.
- The progress percentages (pagination.js:479, 535) are floating-point log output.
- `parseInt` is modelled for decimal text. JavaScript's exponent, hexadecimal (`0x…`), binary (`0b…`), octal (`0o…`) and `Infinity` forms of `Number` are not.
- JsText.ParseInt and CountText.ParseCount return exact integers. JavaScript's `parseInt` returns a double (pagination.js:38 and 140, dataExtractor.js:19): a numeral above 2^53 is rounded, and one of more than 308 digits becomes `Infinity`, after which `currentPage >= maxPages` never holds. Neither effect is modelled.
- CountText.ParseCountOfNumeral: holds of the source only for numerals up to 2^53, because of the rounding above.
- DataExtractor.TotalCountOfNumeral: holds of the source only for counts up to 2^53, for the same reason.
- Pagination.SkippingRejectedReadsPageText: holds of the source only for counts up to 2^53, for the same reason.
- UrlBuilder.BuildUrl: `params` is the list of pairs as `Object.keys` and `String()` leave Express's `req.query`: integer-like keys first, in ascending order, then the others in insertion order, and a repeated key's array of values joined as "a,b". Neither conversion is modelled.
- String lengths are counted in code points, not UTF-16 units. `substring(0, 10)` on text outside the Basic Multilingual Plane can differ.
- `new URL(href, origin)` is a `Resolver` parameter; URL resolution is not modelled.
- The `extractTotalCount` call inside `extractData` (dataExtractor.js:40-44) only feeds a log line. It is not modelled inside `DataExtractor.ExtractData`; `DataExtractor.ExtractTotalCount` models the function on its own.
- An exception is one flag per call: its message is kept where the code returns it, and dropped where the code only logs it.
- The request handler inline in scrap.js (90-110) is the same rule as requestInterceptor.js. It is modelled once, as `RequestFilter.HandleRequest`.
- The scroll promise at pageScroller.js:20 resolves only when the timer stops. A page that grows forever keeps it pending. This is modelled as `None`, not as non-termination.
- The loop ignores the result of `exhaustiveScroll`, and so does the model.
- The screenshot in `scrapWithPagination`'s catch (pagination.js:542) is assumed to resolve. If it rejected, its error would reach the caller instead of `[]`.
- PaginationLoop.PageLoopCorrected: its bound counts passes whose `await exhaustiveScroll(page)` resolved. A scroll that stays pending (`None` from `PageScroller.ExhaustiveScroll`) stalls that pass, and the bound does not cover it.
- PaginationLoop.PageLoop: the as-written loop takes a finite sequence of rounds and reports whether they ran out. It may not end, so it cannot be run over an unbounded supply.
- The `nextToken` block in `goToNextPage` (381-389) only logs and is not modelled.

## Findings

| source | as written | input that shows it | evidently intended | confidence | as-written member | corrected member |
|---|---|---|---|---|---|---|
| pagination.js:475 | `consecutiveFailures` resets after every page with data, so the limit at 502-508 is never reached: each navigation failure is followed by another pass over the same page | total -1, maxPages 10, every pass sees the same non-empty page, navigation fails every time | reset the counter only after a page with data and a successful navigation, so two failures in a row end the scrape | not executed | PaginationLoop.StuckLoopNeverEnds | PaginationLoop.PageLoopCorrected |
| pagination.js:21 | `:contains("anuncios")` is not CSS; `querySelector` throws a SyntaxError, the catch at 73-76 returns -1, and the page-wide search at 45-63 never runs | the first three selectors find no count and the page reads "1234 anuncios" | pass over the invalid selector and fall through to the page-wide search, giving 1234 | not executed | Pagination.AnnouncedTotalLost | Pagination.SkippingRejectedReadsPageText |
