# IBSF athlete crawler: the extraction state machine in Dafny

This project models the core of `ibsf.py`, a crawler that reads the paged athlete
listing of the International Bobsleigh and Skeleton Federation. The model covers these parts:

- **The parser callbacks** (`IbsfHtmlParser`). The parser keeps a stack of open elements and a
  "text since the last opening tag" flag. Text runs the top element's opening handler with that
  text. A closing tag first runs the pending opening handler with `None`, if no text came since
  the last opening tag. It then deletes the topmost element with that name and runs its closing
  handler. Void elements are closed as soon as they are opened.
- **The tag handlers** (`IbsfHtmlTagHandlers`). These hold the per-page state: the result-block
  and flag-block flags, the athlete being built (name, ISO alpha-2 code, continent code) and the
  page's pagination count. The handler is chosen by the lower-cased tag name (`a`, `div`, `img`,
  `html`). What it does depends on the class attribute.
- **The dataset** (`IbsfDataSet`). An append-only list of athletes and an overwritable page
  count.
- **The page loop** (`crawl`). It runs page 1, then pages 2, 3, … while the page number is at
  most the dataset's page count, re-read after every page.
- **The grouping step of the export** (`writeToExcel`). Athletes are grouped by continent name in
  first-appearance order, each group is sorted by name, and rows are numbered from 1.

Each module has one job:

- `Extraction` states every handler and callback as a pure function over values: `Fields`,
  `Data` and `Machine`.
- `Ibsf` holds the classes `DataSet`, `TagHandlers` and `HtmlParser`. Their fields are updated in
  place, and each method is proved to produce exactly the state the matching `Extraction`
  function gives.
- `ExtractionLemmas` and `ExtractionExamples` prove what the machine guarantees.
- `PaginationPages` proves the page count over whole documents made of pagination links.
- `Crawling` holds the page loop, as a method proved against a function, plus lemmas about page
  order.
- `Report` holds the grouping and the stable sort.
- `PyStr`, `Markup`, `FlagPath` and `Wrappers` hold the pieces of Python behaviour the core relies
  on: `str.strip`, `in`, `int()`, `dict(attrs)`, the one regular expression and `Option`/`Result`.

Exceptions are results. The errors are the `IndexError` on an empty stack, the `ValueError` of
`int()` on a pagination text, the two flag-image `RuntimeError`s, and a failed country or
continent lookup. The first exception ends the run, because nothing in the program catches it.

The model follows the code as written, including these behaviours that a reader might not expect:

- a closing tag deletes only the matched element; elements above it stay on the stack;
- the anchor's closing handler emits a record without checking the result-block flag;
- the in-progress fields are never reset, so a block without a flag image reuses the previous
  block's country;
- the anchor's closing handler emits without checking that the fields were set; whether the
  record is appended then depends on the display-name lookups of the empty codes, which the
  resolver decides;
- the dataset's page count is overwritten by each page, not maximised across pages;
- a div's closing handler tests the result-block flag, not the flag-block flag;
- after a void child, an element's opening handler is owed again: a pagination link with text and
  then a void element runs its handler a second time with `None` and raises `ValueError`
  (`VoidTagClosesAtOnce` leaves the "text seen" flag false);
- a failing page ends the crawl.

## Model

| member | source | states |
|---|---|---|
| `Markup.GetClassName` | ibsf.py:30-38 | The class is the `class` attribute's value when it is present and has a value, and `""` otherwise |
| `Markup.ToDict` | ibsf.py:27-28 | `dict(attrs)` has exactly the listed names as keys, and a name listed twice keeps its last value |
| `Markup.FindLast` | ibsf.py:178-180 | The reverse scan finds the topmost entry with the name, or reports that no entry has it |
| `Markup.IsHtmlVoidTag` | ibsf.py:20-25 | A tag name is void exactly when it is one of the 13 names `area`, `base`, `br`, `col`, `embed`, `hr`, `img`, `input`, `link`, `meta`, `source`, `track`, `wbr` |
| `Markup.HandledTagsVoidness` | ibsf.py:20-25 | The void set has 13 names. Of the handled elements only `img` is void, so an image closes as soon as it opens; `a`, `div` and `html` stay open until their closing tags |
| `PyStr.Lower` | ibsf.py:82 | `str.lower()` keeps the length and lowers each ASCII capital, leaving every other character as it is; this is exact for the ASCII tag names that pick a handler |
| `PyStr.LowerOfLowerCase` | ibsf.py:86-88 | A name with no ASCII capitals is its own lower-case form, so the lower-case handler names are matched as written |
| `PyStr.Strip` | ibsf.py:122 | `strip()` returns the slice of the input left after cutting whitespace at both ends; the result neither starts nor ends with whitespace |
| `PyStr.ContainsIff` | ibsf.py:94 | Python's `sub in s` holds exactly when `sub` occurs at some position of `s` |
| `PyStr.ParseIntDecimal` | ibsf.py:95 | `int()` reads back the decimal spelling of a number, with or without a minus sign, and rejects the empty string |
| `FlagPath.MatchFlagPathIff` | ibsf.py:142 | The hand-coded `re.match` accepts a `src` exactly when it is: the flag directory, a non-empty segment without `/`, `/`, three capitals, one character other than a line feed, then `png`. The captured group is those three capitals |
| `FlagPath.LowerCaseCodeRejected` | ibsf.py:142-148 | A flag path with a lower-case code does not match |
| `FlagPath.GermanFlagAccepted` | ibsf.py:142-145 | A well-formed flag path matches even with text after `png`, and captures its code |
| `Ibsf.DataSet.constructor` | ibsf.py:56-58 | A new dataset has no athletes and page count 0 |
| `Ibsf.DataSet.AddAthlete` | ibsf.py:60-63 | Appends one athlete built by the record constructor. If a display-name lookup fails it appends nothing and reports the failure. The page count is unchanged |
| `Ibsf.DataSet.SetNumPages` | ibsf.py:65-66 | Overwrites the page count and keeps the athletes |
| `Ibsf.TagHandlers.constructor` | ibsf.py:69-78 | New handlers: page count 0, both flags false, three empty fields |
| `Ibsf.TagHandlers.HandleStartTag` | ibsf.py:80-84 | On an empty stack it fails with `EmptyStack`. Otherwise it runs the opening handler of the top entry's lower-cased name, and other names change nothing. On failure the state is unchanged |
| `Ibsf.TagHandlers.HandleEndTag` | ibsf.py:86-89 | Runs the closing handler of `a`, `div` or `html` for the lower-cased name; other names change nothing |
| `Ibsf.TagHandlers.StartA` | ibsf.py:91-100 | A pagination class raises the page count to `max(count, int(text))`, and a missing text counts as `""`. Unparsable text fails and changes nothing. Otherwise a result-link class sets the result-block flag. The pagination class takes precedence |
| `Ibsf.TagHandlers.EndA` | ibsf.py:102-112 | A result-link class appends one athlete built from the three fields and clears the result-block flag, without checking that flag or clearing the fields |
| `Ibsf.TagHandlers.StartDiv` | ibsf.py:114-123 | Inside a result block, a flag-block class sets the flag-block flag. Otherwise a name-block class sets the name to the stripped `str(text)`. The flag class takes precedence |
| `Ibsf.TagHandlers.EndDiv` | ibsf.py:125-130 | Inside a result block, a flag-block class clears the flag-block flag |
| `Ibsf.TagHandlers.StartImg` | ibsf.py:132-153 | Inside a flag block, a flag image fails if its `src` is missing or empty, and fails if `src` does not match the path. Otherwise it sets the alpha-2 and continent codes from the two lookups, and changes nothing else |
| `Ibsf.TagHandlers.EndHtml` | ibsf.py:155-156 | Writes the page's count over the dataset's |
| `Ibsf.HtmlParser.constructor` | ibsf.py:159-165 | A new parser has an empty stack, no text seen and fresh handlers over the shared dataset |
| `Ibsf.HtmlParser.HandleStartTag` | ibsf.py:167-173 | Pushes the tag with its attribute dictionary and clears the "text seen" flag. A void tag is closed at once |
| `Ibsf.HtmlParser.HandleEndTag` | ibsf.py:175-183 | Runs the pending opening handler with `None` if no text was seen. The reverse loop then deletes the topmost entry with the name and runs its closing handler; if there is none, nothing more happens |
| `Ibsf.HtmlParser.HandleData` | ibsf.py:185-190 | Ignores text when the stack is empty. Otherwise it runs the top entry's opening handler with the text and sets the "text seen" flag |
| `Ibsf.HtmlParser.Feed` | ibsf.py:201 | Feeding a document's events gives the state that `Extraction.Feed` computes, and stops at the first exception |
| `ExtractionLemmas.CloseRemovesTopmost` | ibsf.py:175-183 | A close removes exactly the topmost entry with its name and keeps the others in order. Its closing handler receives that entry's attributes. Without a match only the pending opening handler runs |
| `ExtractionLemmas.CloseOnEmptyStackFails` | ibsf.py:81 | A close on an empty stack, with no text since the last opening tag, raises the index error |
| `ExtractionLemmas.TextSettlesPendingOpen` | ibsf.py:176-177 | After text inside an element, a closing tag owes no opening handler (text on an empty stack leaves the flag as it was; see `TextOutsideElementsIgnored`) |
| `ExtractionLemmas.TextOutsideElementsIgnored` | ibsf.py:186-188 | Text with an empty stack changes nothing; the raise after the whitespace match is unreachable |
| `ExtractionLemmas.TextRunsOpenHandler` | ibsf.py:189-190 | Inside an element, text succeeds exactly when the top entry's opening handler does. It keeps the stack and dataset and marks text as seen |
| `ExtractionLemmas.VoidTagClosesAtOnce` | ibsf.py:167-173 | A void tag runs its opening handler once with `None`, then its closing handler. The stack ends as it began, with the "text seen" flag false |
| `ExtractionLemmas.PaginatorWithoutTextFails` | ibsf.py:95 | A pagination link with no text fails on `int("")` |
| `ExtractionLemmas.StartAPageCount` | ibsf.py:94-96 | The anchor handler never lowers the page count, and any new count is the number of its text |
| `ExtractionLemmas.FeedPageCount` | ibsf.py:71 | For any document, a bound: the handlers' count never decreases and is the start value or a number some text gave. The dataset's count is its old value or such a number. The exact maximum is stated by `PaginationPages.PaginationPageCount` |
| `ExtractionLemmas.PageCount` | ibsf.py:155-156 | For any page, a bound: the dataset's count afterwards is its old value, 0, or a number announced on that page |
| `ExtractionLemmas.OtherOpenTagsIgnored` | ibsf.py:80-84 | An element whose lower-cased name is not `a`, `div` or `img` has no opening handler: the fields stay as they are |
| `ExtractionLemmas.OtherCloseTagsIgnored` | ibsf.py:86-89 | A closing tag whose lower-cased name is not `a`, `div` or `html` has no closing handler: fields and dataset stay as they are |
| `ExtractionLemmas.PaginatorTakesMax` | ibsf.py:94-95 | Each pagination text raises the count to the larger of the old count and its number |
| `PaginationPages.MaxOfBounds` | ibsf.py:95 | The running `max` is at least the start value and every number, and equals the start value or one of the numbers |
| `PaginationPages.MaxOfOrderFree` | ibsf.py:95 | The running `max` does not depend on the order of the numbers |
| `PaginationPages.OneLink` | ibsf.py:94-96 | One pagination link with text (open, text, close) raises the count to `max(count, int(text))`, marks text as seen and leaves stack and dataset as before |
| `PaginationPages.LinksFeed` | ibsf.py:94-96 | A run of pagination links whose texts read as numbers leaves the maximum of the start count and all those numbers, and changes nothing else but the "text seen" flag |
| `PaginationPages.PaginationPageCount` | ibsf.py:155-156 | A page `<html>` holding pagination links with numeric texts, run through a fresh parser, ends with an empty stack, handler count and dataset count both equal to `max(0, numbers…)`, and the records unchanged |
| `PaginationPages.PageCountOrderFree` | ibsf.py:155-156 | Two such pages whose numbers are the same multiset give the same dataset |
| `PaginationPages.LiteralPaginationExample` | ibsf.py:94-96 | The page with links "1", "2", "5", "3" sets the dataset's count to 5, and so does the page with links "5", "3", "1", "2" |
| `PaginationPages.PaginationExample` | ibsf.py:94-96 | A page with pagination texts reading 1, 2, 5, 3 sets the dataset's count to 5, and so does the page with the same texts in the order 5, 3, 1, 2: the count is the largest, not the last |
| `ExtractionLemmas.SmallNumbers` | ibsf.py:95 | The texts "1", "2", "3" and "5" read as those numbers |
| `ExtractionLemmas.MakeAthleteFields` | ibsf.py:41-47 | The record constructor succeeds exactly when both display-name lookups do. It copies the three fields and stores the looked-up names |
| `ExtractionLemmas.EndAEmitsOne` | ibsf.py:102-112 | Closing a result link appends exactly one record at the end, built from the current fields, and keeps earlier records and the count. Only the result-block flag changes; the fields are not cleared |
| `ExtractionLemmas.ResultLinkOpens` | ibsf.py:98-100 | A result link that is no pagination link sets the result-block flag and changes nothing else, whether its handler runs with text or with `None` |
| `ExtractionLemmas.FlagBlockCloses` | ibsf.py:128-130 | Inside a result block, closing a flag block clears the flag-block flag |
| `ExtractionLemmas.NameBlockTakesText` | ibsf.py:121-123 | Inside a result block, a name block's text, stripped, becomes the current name |
| `ExtractionLemmas.FeedAppendsOnly` | ibsf.py:60-63 | A document only appends: the records collected before stay, in order |
| `ExtractionLemmas.PageIndependentOfEarlierRecords` | ibsf.py:194-201 | A page appends the same records, and fails or not the same way, whatever records came before it |
| `ExtractionLemmas.FlagImageOutcome` | ibsf.py:132-153 | Inside a flag block, a flag image with no `src` fails, and a `src` of the wrong shape fails with that `src`. A `src` of the flag shape sets the codes its lookups give. On success only the two codes change |
| `ExtractionLemmas.FlagImageMatched` | ibsf.py:142-153 | A flag image whose `src` has the flag-path shape stores the codes the two lookups give |
| `ExtractionLemmas.NameWithoutTextIsNone` | ibsf.py:122 | A name block closed before any text sets the name `"None"` |
| `ExtractionLemmas.FlagClassWins` | ibsf.py:117-123 | A div with both block classes inside a result block opens the flag block and leaves the name alone |
| `ExtractionLemmas.DivOutsideResultBlock` | ibsf.py:117-130 | Outside a result block, div handlers do nothing, even for a flag block's closing tag |
| `ExtractionLemmas.NoClassNoEffect` | ibsf.py:30-38 | An element with no class value leaves every handler's state unchanged |
| `ExtractionExamples.OneBlockEmitsOneRecord` | ibsf.py:91-153 | One result block goes through a fresh parser: link, name block, flag block with a matching image, close. It appends exactly one record, with the stripped name and both resolved codes, and changes nothing else in the dataset |
| `ExtractionExamples.OpenFlagImage` | ibsf.py:167-173 | The flag image is closed at once; its handler sets the codes and the stack is as before |
| `ExtractionExamples.CloseFlagBlock` | ibsf.py:176-177 | After the void image, the flag block's opening handler runs again with `None` before its closing handler |
| `Crawling.CrawlOnePage` | ibsf.py:194-201 | A fresh parser over the shared dataset processes one page's events |
| `Crawling.Crawl` | ibsf.py:204-209 | The loop runs page 1, then pages while the page number is at most the re-read count. It ends in the state and status that `CrawlResultOf` gives |
| `Crawling.CrawlOrder` | ibsf.py:204-209 | Pages run in the order 1, 2, 3, …, each once, each on the dataset the previous page left. The crawl stops after the first page k whose count is below k + 1, at the first failing page, or at the limit |
| `Crawling.CrawlFixedCount` | ibsf.py:204-209 | If every page reports the same count N, exactly pages 1 to max(1, N) are processed |
| `Crawling.LaterSmallerCountStops` | ibsf.py:65-66 | The count is overwritten, not maximised: page 1 reporting 5 and page 2 reporting 1 ends the crawl after page 2 |
| `Report.SortByNameCorrect` | ibsf.py:227 | The sort gives a permutation ordered by name; athletes with equal names keep their order |
| `Report.ContinentOrderFirstAppearance` | ibsf.py:218-224 | The dictionary's keys list each continent once, in the order of each continent's first athlete |
| `Report.GroupsPartition` | ibsf.py:218-226 | As a multiset, the groups together hold exactly the dataset's athletes |
| `Report.GroupByContinent` | ibsf.py:218-224 | The loop builds the key order and, for each continent, its athletes in discovery order |
| `Report.SheetOf` | ibsf.py:228-234 | A sheet has one row per athlete of its group |
| `Report.WriteToExcel` | ibsf.py:217-235 | There is one sheet per continent, in first-appearance order. Each sheet holds its group sorted by name, with rows numbered from 1 |
| `Report.ExportExample` | ibsf.py:217-234 | Bob and Ann (CH) and Eli (DE), all in Europe, give one sheet with rows 1 Ann, 2 Bob, 3 Eli |

## Left out

- The HTTP request, the URL and the progress printing of `crawlOnePage` (ibsf.py:194-202) are
  network and console I/O. A page is a function from page number to its event sequence.
- The tokenizer of `html.parser.HTMLParser` is an external library, and so is its character
  reference conversion. Events `Open(name, attrs)`, `Close(name)` and `Text(s)` are inputs.
- The `country_converter` and `pycountry_convert` tables are foreign data. This includes the
  IOC-then-default fallback of `ibsfToAlpha2CountryCode`. They are modelled as four partial
  functions of a `Resolver`; a lookup that raises is `None`.
- `int()` accepts only ASCII digits here. Underscores and other Unicode digits are not modelled.
  `str.strip()` uses Python's whitespace set.
- PyStr.Lower: this folds only ASCII capitals, not Python's full Unicode case mapping. That is
  exact for the ASCII tag names that are dispatched.
- The regular-expression engine is not modelled; only the one flag-path pattern is hand-coded.
- pandas, the DataFrame and the Excel file are library output. Sheets are values (`Sheet`, `Row`).
- `exportExcel` and `main` are left out: interactive prompting, file checks, path validation,
  keyboard interrupts, and the `.xls`/`.xlsx` suffix rule.
- Crawling.Crawl: the source loop has no bound, and pages could keep announcing more pages.
  The model takes a `pageLimit` and stops with `PageLimitReached` instead of fetching a page above it.
- Ibsf.HtmlParser.HandleStartTag, Ibsf.HtmlParser.HandleEndTag, Ibsf.HtmlParser.HandleData and
  Ibsf.HtmlParser.Feed: these state the object state only on success. After an exception the
  run ends, so the state left behind is not specified.
- Report.SheetOf: this states only the row count; the row contents are stated by `WriteToExcel`
  and `ExportExample`.
- Python's `list.sort` works in place. The model sorts each group as a value (`SortByName`, an
  insertion sort, as stable as the source's) and stores it back into the dictionary.
