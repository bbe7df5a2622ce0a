# SEC-Trading core, modelled in Dafny

SEC-Trading is a pair of scripts. `data_collection.py` scrapes the SEC EDGAR
"current events" page for Form 8-K filings that report Item 1.01 (entry into
a material definitive agreement). It drops companies trading under $5 and
cuts the Item 1.01 section out of each filing's text. It asks a sentiment
service about that section and keeps the answers in an SQLite table, so a
filing is not analysed twice. `PaperTrial.py` watches a paper-trading
position and sells it through a trailing stop.

The model covers the sequential logic inside both scripts:

- **`PyStr`** (`pystr.dfy`): the Python `str` operations the scraper relies
  on, with CPython's semantics:
  - `find`, with its -1 answer and its start adjustment;
  - slicing with negative and out-of-range bounds;
  - `strip()` and `split()` over CPython's whitespace set;
  - `' '.join`, `replace` of one character, `lower()` and `zfill`.
- **`Whitespace`** (`normalize.dfy`): what the normalisation
  `' '.join(s.split())` guarantees.
- **`Item101`** (`item101.dfy`): `get_8k_content` once the filing's text is
  downloaded. This covers the section start, the loop over the sixteen
  "Item 2" … "ITEM 9" markers that ends the section, and the clean-up of
  the cut-out text.
- **`EdgarHeaders`** (`edgar_headers.dfy`):
  - slicing the company name, CIK, items and accession number out of a
    page row;
  - the Item 1.01 test;
  - `check_penny_stock`'s decision once the price lookup has answered.
- **`FilingTable`** (`filing_table.dfy`): the `analyzed_filings` table as a
  class `AnalyzedFilings` whose field `rows` maps accession numbers (the
  primary key) to rows. `store_analysis` and `clean_old_entries` change
  it in place. `is_filing_analyzed` is a lookup that needs CIK, filing
  date and accession to all match. A proof shows that comparing
  'YYYY-MM-DD' strings, as the `DELETE` does, is calendar order.
- **`FilingSelection`** (`filing_selection.dfy`): the second
  `get_latest_8k_filings`, whose index-driven `while` loop is a method.
  Its loop body is split over three methods, one per stage of the row.
  The method is proved equal to a recursive specification `Scan`.
  Lemmas about `Scan` state:
  - the bound of `limit` records;
  - at most `limit` sentiment requests;
  - no penny stocks;
  - skipping or reusing known sentiment;
  - exactly which analyses are stored.
- **`PaperTrial`** (`paper_trial.dfy`): `monitor_position` as a loop over
  the positions it reads in turn, proved equal to the specification
  `RunFrom`, and `close_all_orders`.

The network collaborators are parameters of arrow type:
- the EDGAR page, already parsed into rows of cell texts and link targets;
- the filing download;
- the price lookup;
- the sentiment service;
- the broker's answers.

`today` and the cleanup cutoff date are parameters as well. An exception
that escapes to `get_latest_8k_filings`'s outer `except` sets a `raised`
flag. The call then returns no records, but rows already stored stay in the
table, because `store_analysis` commits each store.

Where the code and the intent visible in the source disagree, the model
follows the code:
- `clean_old_entries` says "Remove entries older than 2 days" in its
  docstring (data_collection.py:221) and names its cutoff `two_days_ago`,
  but computes it as `timedelta(days=4)` (data_collection.py:226). Its
  cutoff is a parameter here.
- `highest_price = max(highest_price, current_price)`
  (PaperTrial.py:63) shows the stop is meant to track the highest price
  seen. Line 58 first sets `highest_price` to the current price on every
  poll above the entry price, so the `max` has nothing left to keep. As
  written, the stop is therefore always below the current price when
  prices are positive, and the sell branch is never taken
  (`PaperTrial.NeverSells`). Entry 100 with prices 100, 101, 102, 101.94
  does not exit (`PaperTrial.RisingThenDipping`). A running maximum would
  exit at 101.94.

## Model

| member | source | states |
|---|---|---|
| PyStr.FindFrom | data_collection.py:84 | the answer is -1 or an occurrence at or after the search start, and no occurrence lies between the start and the answer |
| PyStr.Find | data_collection.py:74-76 | a non-negative answer is an occurrence at or after Python's adjusted start (negative starts count from the end, clamped at 0), and no occurrence precedes it |
| PyStr.FindAbsent | data_collection.py:74-76 | `find` answers -1 exactly when the pattern occurs nowhere at or after the adjusted start |
| PyStr.SliceCases | data_collection.py:303-304 | an in-range slice is the subsequence; a negative stop counts from the end; a stop past the end is clamped; an empty or out-of-range range gives "" |
| PyStr.LStrip | data_collection.py:88 | the result is a suffix that begins with non-whitespace, and everything dropped is whitespace |
| PyStr.RStrip | data_collection.py:88 | the result is a prefix that ends with non-whitespace, and everything dropped is whitespace |
| PyStr.Word | data_collection.py:71 | the longest whitespace-free prefix: it is a prefix, contains no whitespace and is followed by whitespace or the end |
| PyStr.Split | data_collection.py:71 | every piece `split()` yields is non-empty and free of whitespace (the lemmas `Whitespace.SplitWord`, `SplitSpace` and `SplitGap` fix which pieces they are) |
| Whitespace.SplitWord | data_collection.py:71 | `split()` of a single whitespace-free word yields exactly that word |
| Whitespace.SplitSpace | data_collection.py:71 | `split()` of whitespace alone yields no pieces |
| Whitespace.SplitGap | data_collection.py:71 | `split()` of `a`, a non-empty whitespace gap, then `b` yields the pieces of `a` followed by those of `b`; with the two rows above this makes the pieces the maximal whitespace-free runs of the input, in order |
| Whitespace.JoinIsNormal | data_collection.py:71 | words joined with single spaces give a normal string: single-spaced, with no whitespace at either end |
| Whitespace.JoinAppend | data_collection.py:71 | `' '.join` of two non-empty lists of pieces is the two joins with one space between them |
| Whitespace.NormalizeGap | data_collection.py:71 | normalising text with a whitespace gap between two non-blank parts keeps the normalised words of both parts, with exactly one space between them |
| Whitespace.SplitJoin | data_collection.py:90 | `split` of the space-joined words gives the words back |
| Whitespace.JoinSplit | data_collection.py:90 | joining the words `split` yields from a normal string gives the string back |
| Whitespace.NormalizeIsNormal | data_collection.py:71 | normalised text has no leading or trailing whitespace, no two consecutive spaces, no '\n' or '\r', and no whitespace other than single spaces |
| Whitespace.NormalizeIdempotent | data_collection.py:89-90 | normalising twice gives the same result as normalising once |
| Whitespace.NormalizeFixpoint | data_collection.py:89-90 | normalisation leaves a string unchanged exactly when the string is normal |
| Whitespace.SliceSingleSpaced | data_collection.py:88 | every slice of a single-spaced string is single-spaced |
| Whitespace.StripSingleSpaced | data_collection.py:88 | stripping a single-spaced string gives a normal string |
| Whitespace.NormalUntouched | data_collection.py:88-89 | strip and the '\n'/'\r' replacements leave a normal string unchanged |
| Item101.NextItemStart | data_collection.py:79-86 | reference definition of the section end: the first position at or after the start where one of the sixteen markers begins, else the length; no marker begins before it |
| Item101.SectionEnd | data_collection.py:79-86 | the `for item in next_items` loop over `find(item, start_idx + 8)` and `min` computes exactly that first marker position |
| Item101.NextItemStartUnique | data_collection.py:81-86 | a position that is the end or a marker, with no marker before it, is the first marker position |
| Item101.Get8kContent | data_collection.py:66-94 | no download gives None; otherwise the result is the Item 1.01 section of the downloaded text |
| Item101.SectionAbsent | data_collection.py:74-78 | no section is found exactly when neither "Item 1.01" nor "ITEM 1.01" occurs in the normalised text |
| Item101.SectionStartChoice | data_collection.py:74-76 | the first "Item 1.01" is used whenever it occurs, even after an earlier "ITEM 1.01"; otherwise the first "ITEM 1.01" |
| Item101.SectionBounds | data_collection.py:74-86 | the start is a full marker, and the end lies at least nine characters after it, within the text |
| Item101.StripKeepsMarker | data_collection.py:88 | stripping a single-spaced string whose first and ninth characters are not whitespace keeps its first nine characters, and the result is normal |
| Item101.StripSliceShape | data_collection.py:88 | stripping a slice of normal text that starts at the marker keeps the marker's nine characters in front and gives normal text |
| Item101.CleanupUnchanged | data_collection.py:89-90 | on normal text the '\n' and '\r' replacements and the re-normalisation change nothing |
| Item101.ExtractedShape | data_collection.py:88-90 | on normal content the cut-out text is `content[start:end].strip()`, begins with the marker and is already normal, so the replacements and re-normalisation change nothing |
| Item101.SectionShape | data_collection.py:79-92 | a found section is `content[start:end]` stripped, where `end` is the first marker at or after `start + 8` (or the length); it begins with the matched marker, is normal, and no marker starts between `start + 8` and `end` |
| EdgarHeaders.ParseCompanyParenthesised | data_collection.py:303-304 | with a '(' and a later ')', the name is the stripped text before the first '(' and the CIK the stripped text between the first '(' and the first ')' |
| EdgarHeaders.ParseCompanyUnparenthesised | data_collection.py:303 | without a '(' the name loses the text's last character, through `find`'s -1 |
| EdgarHeaders.ParseDescriptionOrdered | data_collection.py:319-320 | with the markers in their usual order, the items are the stripped text between "items" and "Accession", and the accession number the stripped text between "Accession Number:" and "Act" |
| EdgarHeaders.LowerAt | data_collection.py:312 | the lower-case pattern occurs in `lower()` of the text at a position exactly when the text spells it there up to ASCII case |
| EdgarHeaders.ReportsItem101Iff | data_collection.py:312 | a row counts as an Item 1.01 filing exactly when its description contains 'items 1.01' in some mix of ASCII upper and lower case, such as 'Items 1.01' or 'ITEMS 1.01' |
| EdgarHeaders.ZFillDigits | data_collection.py:170 | `zfill(10)` of a digit string has length max(10, n), ends with the string and is padded on the left with '0' only |
| EdgarHeaders.ZFillSigned | data_collection.py:170 | a leading sign stays first and the zeros go after it |
| EdgarHeaders.NotPennyIff | data_collection.py:179-196 | a stock passes the penny check exactly when its 10-digit CIK was quoted at 5 or more; a failed request counts as a penny stock |
| FilingTable.AnalyzedFilings.constructor | data_collection.py:207-214 | a new table is empty |
| FilingTable.AnalyzedFilings.StoreAnalysis | data_collection.py:250-266 | the rows become the old rows with the accession's row replaced by the new analysis dated today |
| FilingTable.AnalyzedFilings.CleanOldEntries | data_collection.py:219-231 | the rows become the old rows minus those analysed before the cutoff |
| FilingTable.LookupAfterInsert | data_collection.py:240-263 | after a store, the same CIK, date and accession find the new sentiment; a lookup whose CIK or date differs finds nothing |
| FilingTable.InsertKeepsOthers | data_collection.py:211 | a store adds or replaces only the accession's row: the keys gain at most that one, there is one row per accession, and every other row is unchanged |
| FilingTable.CleanExact | data_collection.py:226-228 | cleaning keeps exactly the rows whose analysis date is not less than the cutoff as text, and leaves them untouched |
| FilingTable.NumeralOrder | data_collection.py:226-228 | equal-length digit strings compare as text exactly as their values compare |
| FilingTable.IsoDateOrder | data_collection.py:226-228 | on 'YYYY-MM-DD' dates the text comparison is calendar order |
| FilingTable.CleanKeepsRecent | data_collection.py:226-228 | with ISO dates, cleaning keeps exactly the rows analysed on or after the cutoff day |
| FilingSelection.GetLatest8kFilings | data_collection.py:268-361 | the returned records, the final table and the number of sentiment requests are those of `Select` (clean, then scan); an escaped exception returns no records |
| FilingSelection.ProcessRow | data_collection.py:296-306 | one loop pass on a row has the effect `Visit` gives it |
| FilingSelection.ProcessFiling | data_collection.py:307-321 | the pass on a company's filing row has the effect `VisitFiling` gives it |
| FilingSelection.ProcessEligible | data_collection.py:323-353 | the pass on an eligible filing has the effect `VisitEligible` gives it |
| FilingSelection.AnalyseContent | data_collection.py:338-342 | the sentiment is asked for exactly when the section is non-empty, the request count grows by one exactly then, and the table gains the analysis exactly when the answer is non-empty too |
| FilingSelection.VisitFacts | data_collection.py:296-355 | one pass appends at most one record, which is well formed; it changes the table and the request count exactly as that record says, and never clears an escaped exception |
| FilingSelection.ScanFacts | data_collection.py:295-355 | from any point on, the loop keeps the records it has, collects at most `limit`, appends only well-formed records, stores exactly their analyses in order, and counts exactly their sentiment requests |
| FilingSelection.SelectFacts | data_collection.py:294-355 | at most `limit` records and at most `limit` sentiment requests; no penny stock is returned; with `skip_known` no known filing is returned; a reused sentiment is non-empty and comes without content; the table ends as the cleaned table plus, in order, the analyses of new records with non-empty content and sentiment |
| FilingSelection.StoreNewAppend | data_collection.py:338-342 | stores and request counts of two batches of records compose |
| FilingSelection.VisitReachesEligible | data_collection.py:299-321 | a company row followed by a row of four or more cells whose description names items 1.01, of a stock that passes the penny check, reaches the eligible stage with the parsed name, CIK, items, accession and date |
| FilingSelection.VisitKnownFiling | data_collection.py:324-333 | a filing with a non-empty stored sentiment is skipped under `skip_known`, and otherwise returned as 'Existing' with that sentiment, no content, no request and no store |
| FilingSelection.VisitNewFiling | data_collection.py:334-353 | a filing without usable stored sentiment raises when its cell has no link; otherwise its first link is fetched, a request is made exactly when the section is non-empty, the analysis is stored exactly when the answer is non-empty too, and the record is 'New' |
| FilingSelection.VisitPennyStock | data_collection.py:314-317 | a penny stock changes nothing: no record, no store, no request |
| PaperTrial.Polls | PaperTrial.py:50 | `n` polls make `n` position reads of the ticker |
| PaperTrial.Cancels | PaperTrial.py:81-86 | one cancel request per listed order, in order, each with that order's own outcome |
| PaperTrial.CloseAllOrders | PaperTrial.py:79-86 | the open orders are listed, then every listed order gets a cancel attempt, whatever earlier attempts gave |
| PaperTrial.MonitorPosition | PaperTrial.py:43-77 | the final trail and outcome are those of `RunFrom`; the requests are one read per poll and, on a sale, the order listing and cancels before a market/gtc sell of the whole quantity |
| PaperTrial.WaitKeepsTrail | PaperTrial.py:56-62 | at or below the entry price a poll keeps the trail and orders nothing |
| PaperTrial.ProfitOverwrites | PaperTrial.py:56-67 | above the entry price a poll activates the trail and sets the highest price to the current price, whatever it was; the stop is `highest * (1 - trailing_percent)`; a sell happens exactly when the price is at or below it, and the run then ends |
| PaperTrial.SellIff | PaperTrial.py:63-67 | with a positive trailing percentage, a poll sells exactly when the price is above the entry price and not positive |
| PaperTrial.NeverSells | PaperTrial.py:56-67 | with positive prices and a percentage strictly between 0 and 1, no run ever sells |
| PaperTrial.MonitorNeverSells | PaperTrial.py:43-77 | the monitor with its 0.0005 never sells on a positive price feed |
| PaperTrial.LastGainFront | PaperTrial.py:56-58 | the trail after a first poll and then more is the trail of the rest started from the first poll's effect |
| PaperTrial.TrailIsLastGain | PaperTrial.py:56-63 | however the run ends, its trail holds the price of the last poll above entry among those made, not the highest price |
| PaperTrial.RisingThenDipping | PaperTrial.py:43-67 | entry 100 with prices 100, 101, 102, 101.94 leaves the monitor polling with highest 101.94, although 101.94 is at or below the stop a running maximum of 102 gives |

## Left out

- HTTP traffic is not modelled. This covers the EDGAR page, the filing index and document, the submissions JSON and the sentiment API. Only their answers enter, as parameters.
- BeautifulSoup parsing is not modelled. Rows arrive as the cell texts and link targets of each `<tr>`. An index page without a `.txt` link is a missing download.
- The yfinance price lookup is not modelled. Only its answer enters: a close, a request failure, or any other failure.
- `analyze_8k_sentiment` is an answer parameter. Its prompt and request are not modelled.
- SQLite connection, cursor and commit mechanics are not modelled. `initialize_database` is the empty table.
- `datetime.now()` is not modelled. `today` and the cleanup cutoff are parameters.
- The first `get_latest_8k_filings` (data_collection.py:100-166) is left out, because the definition at line 268 replaces it.
- `print_database_contents`, `monitor_filings` and `main_menu` are left out: they are file output, an endless sleep loop and a console menu.
- `buy` in PaperTrial.py is left out. It cannot run: `api.submit-order`, and the undefined `quantity` and `stop_order`.
- The `__main__` block of PaperTrial.py is left out. It refers to undefined names, and its point is thread-pool concurrency.
- The Alpaca client setup is left out.
- Sleeps and print statements are left out.
- Float rounding is not modelled: prices are reals.
- NaN prices are not modelled. A NaN close compares as neither below nor at 5.
- Exceptions from `list_orders` and `submit_order` are not modelled: both are taken to succeed.
- PyStr.Lower: lowers only the ASCII capitals. Python's `lower()` also lowers other Unicode letters, which cannot change whether 'items 1.01' occurs except through characters such as 'İ' that lower to more than one character.
- PyStr.ReplaceChar: models only the one-character replacements the scraper uses.
- PaperTrial.MonitorPosition: the `while True` loop runs over a finite list of polls. Running out of polls stands for polling on; the model does not capture the loop never ending.
- FilingSelection.GetLatest8kFilings: does not relate `cutoff` to `today`. The source computes the cutoff as four days before `now()`. The model takes any cutoff.
- FilingSelection.GetLatest8kFilings: an exception that escapes while reading a row also covers attribute lookups on malformed HTML. Only the two `IndexError`s and the price lookup's non-request failures are distinguished.
