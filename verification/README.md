# Pokémon card collection sheet: a Dafny model

Two batch scripts keep a Google Sheets card inventory (the "Collection"
worksheet) in step with the Pokémon TCG catalog API:

- `fetch_card_details.py` is the **search flow**. It scans the records. For every
  record whose Status is "search" and whose Name is not empty, it builds the query
  `name:"…" set.name:"…" number:"…"` and calls the search endpoint, retrying on 429s and
  failed requests. It appends every match to the "Search Results" sheet. From the last
  match it queues cell updates for the record's row: Status, Unique Identifier, Type
  and, for a recognised finish, Price. The queue is written in one batch at the end.
- `update_card_prices.py` is the **refresh flow**. For every record with a Unique
  Identifier, it fetches that card once. It queues the market price for the row's
  finish (Shiny cell) into column 10 and logs the outcome. It pauses 5 seconds, and
  writes the queue in one batch at the end.

The model treats everything the scripts receive from outside as input values:
sheet records, HTTP outcomes and the A1-notation converter. Everything they
change is state: the update queues, the rows appended to Search Results, and a
trace of requests, pauses and log lines.

- `py.dfy` (`Py`) holds the Python values the scripts handle: `str`, `int`,
  `float` (kept as its `str()` text), `None`. It also holds truthiness,
  `str.strip()` over `str.isspace()` characters, `str.lower()` and `str()`.
- `catalog.dfy` (`Catalog`) holds card records, where any key may be absent, the
  three finishes, and the `.get(…, {})` chain that reads a market price.
- `sheet.dfy` (`Sheet`) holds Collection records, the column numbers, cell updates
  and the batch payload built from them.
- `fetch_card_details.dfy` (`FetchCardDetails`) covers the search flow:
  - the retry loop, as a method proved against the function `FetchSpec`;
  - row selection and the query;
  - `process_search_results`;
  - the scan loop, as methods of the class `SearchJob`, whose fields are the
    module-level lists. These are proved against the specification functions
    `RowEffect` and `ScanEffect`.
- `update_card_prices.dfy` (`UpdateCardPrices`) covers the refresh flow.
  `fetch_card_price` and `main` are methods of the class `PriceJob`, proved against
  `PriceUpdate`, `Returned`, `RowRefresh` and `RefreshEffect`.

The HTTP environment is a function parameter:

- In the search flow, `respond(row, a)` is how the a-th request made for sheet row
  `row` ends.
- In the refresh flow, `respond(row)` is the reply to the one request for that row.
- `a1(row, col)` stands for `gspread.utils.rowcol_to_a1`.

Column 5, where the search flow stores the card's `supertype`, is the Type column
in the sheet's expected headers. The source's inline comment calls it the card
number column. The model follows the code and the headers: the Type cell receives
`supertype`.

In the refresh flow, `fetch_card_price` returns a value that depends on the finish:

- The Normal and Reverse Holofoil branches return the 1-tuple `(None,)`, because
  of a trailing comma.
- The Holofoil branch returns `None` after it has queued its price.

The model keeps this exactly. For one call, `PriceCallOutcomes` states it. For a
whole run, `HolofoilPriceQueuedButNotReported` states it: a Holofoil row gets its
price queued, yet its only log line is "No price found".

The scan is specified over `fetched(row)`, which is how the lookup for a sheet row
ends. `LookupResults(respond)` ties that to the retry loop, and `ScanRows` is proved
against it. A lookup "has cards" (`if cards:`) when it returned a non-empty list.

## Model

| member | source | states |
|---|---|---|
| `Py.Truthy` | update_card_prices.py:62 | empty strings, zero, `0.0` and None are false; every non-empty string is true |
| `Py.SkipSpace` | fetch_card_details.py:91 | the leading whitespace ends at the returned index: everything before it from `i` is whitespace and the character there is not |
| `Py.SkipSpaceBack` | fetch_card_details.py:91 | the trailing whitespace of a slice starts at the returned index: everything after it is whitespace and the character before it is not |
| `Py.Strip` | fetch_card_details.py:90-91 | the result is a slice of the input that is cut off only at whitespace (per `str.isspace`) and that neither starts nor ends with whitespace |
| `Py.StripPadded` | fetch_card_details.py:90-91 | conversely, whitespace around a string whose ends are not whitespace is exactly what strip removes; with `Strip`'s contract this pins strip down |
| `Py.StripIdempotent` | fetch_card_details.py:90-91 | stripping twice equals stripping once |
| `Py.Lower` | fetch_card_details.py:134 | lowercasing keeps the length; an ASCII capital becomes the letter 32 code points above it and every other character is kept |
| `Py.LowerIsSearch` | fetch_card_details.py:134-135 | a string lowers to "search" exactly when it has six characters, each the letter of "search" in either case |
| `Py.DigitsOf` | update_card_prices.py:33 | a non-empty run of decimal digits with no leading zero unless the number is 0, which read back as a decimal numeral (`DecimalValue`) gives the number |
| `Py.DigitsOfInjective` | update_card_prices.py:33 | two numbers have the same digits exactly when they are equal |
| `Py.Render` | update_card_prices.py:33 | the f-string text of a value: a string is itself, None is "None", an integer is its decimal numeral, read back as the number, with a leading '-' exactly when negative |
| `Py.RenderIntInjective` | fetch_card_details.py:145 | two integers render to the same text exactly when they are equal, so an integer Card Number cell is written into the query faithfully |
| `Catalog.Field` | fetch_card_details.py:100-109 | `get(key, '')`: the stored value when the key is present, `''` when it is missing |
| `Catalog.IsEmptyObject` | update_card_prices.py:40 | the card object is falsy exactly when it is `{}`, the card without any key |
| `Catalog.VariantOf` | update_card_prices.py:41-46 | a Shiny cell selects a finish exactly when it equals "Normal", "Reverse Holofoil" or "Holofoil" |
| `Catalog.QuoteFor` | update_card_prices.py:42-46 | the Normal finish is read under the key `normal`, Reverse Holofoil under `reverseHolofoil` and Holofoil under `holofoil` |
| `Catalog.MarketPrice` | update_card_prices.py:42-46 | when `tcgplayer`, `prices`, the finish's quote and its `market` are all present the price is that `market`; as soon as one of them is missing it is `''` (same chain as fetch_card_details.py:105-107) |
| `Sheet.RowNumber` | fetch_card_details.py:132 | records start on sheet row 2, below the header row |
| `Sheet.RowNumberOrder` | update_card_prices.py:56 | a later record sits on a later row and no two records share a row |
| `Sheet.BatchUpdates` | fetch_card_details.py:156-158 | one batch entry per queued update, in the same order: entry k is the A1 range of update k's row and column with `[[value]]` |
| `FetchCardDetails.Found` | fetch_card_details.py:67-72 | a successful reply yields cards exactly when `data` is present and non-empty, and then yields that list |
| `FetchCardDetails.FirstSuccess` | fetch_card_details.py:56-72 | the attempt that ends the loop: every earlier answer was a 429 or a failure, and if it is within budget it is a success |
| `FetchCardDetails.FetchSpec` | fetch_card_details.py:56-78 | at most `retries` requests; the cards returned are never an empty list; every pause follows a 429 or a failure, 5 exactly after a 429 and 2 exactly after a failure |
| `FetchCardDetails.FetchCardDetailsLoop` | fetch_card_details.py:49-78 | the counted loop with its early returns produces exactly the cards, request count and pauses of `FetchSpec` |
| `FetchCardDetails.FetchExhausted` | fetch_card_details.py:56-78 | when every attempt is a 429 or a failure, None after exactly `retries` requests, each paused |
| `FetchCardDetails.FetchStopsAtFirstSuccess` | fetch_card_details.py:64-72 | the first success ends the call on that attempt (j + 1 requests), returning its data if non-empty and None otherwise, so nothing is retried after it |
| `FetchCardDetails.FetchAfterRateLimit` | fetch_card_details.py:56-69 | a 429 then a reply with cards gives the cards after 2 requests and a single pause of 5 |
| `FetchCardDetails.SafeStrip` | fetch_card_details.py:90-91 | a string becomes the string stripped of surrounding whitespace; every other value is returned unchanged |
| `FetchCardDetails.SafeStripIdempotent` | fetch_card_details.py:90-91 | safe_strip is idempotent |
| `FetchCardDetails.IsSearchStatus` | fetch_card_details.py:134-135 | a Status that passes is a string whose stripped text has six characters |
| `FetchCardDetails.SearchStatusIsPaddedSearch` | fetch_card_details.py:134-135 | a Status that passes is "search" in some letter case, padded with whitespace |
| `FetchCardDetails.PaddedSearchIsSearchStatus` | fetch_card_details.py:134-135 | any whitespace-padded "search", in any letter case, passes |
| `FetchCardDetails.SearchStatusExactly` | fetch_card_details.py:134-135 | both directions: the Status test holds exactly for string cells holding a padded "search" in any case |
| `FetchCardDetails.QueryText` | fetch_card_details.py:145 | the query is 29 characters longer than its three parts, starts with `name:"` followed by the name, and ends with a double quote |
| `FetchCardDetails.QueryInjective` | fetch_card_details.py:145 | the query string determines name, set and number when none contains a double quote |
| `FetchCardDetails.PlanRow` | fetch_card_details.py:132-145 | a record is queried exactly when its Status passes and its stripped Name is truthy; a non-string Status raises; the query is `name:"<stripped name>" set.name:"<set>" number:"<number>"` with only the name stripped, and the Shiny cell is carried along |
| `FetchCardDetails.ResultRow` | fetch_card_details.py:99-110 | each card becomes a ten-cell Search Results row |
| `FetchCardDetails.ResultRowCells` | fetch_card_details.py:99-110 | each cell under its Search Results header: Card Name, Set Name (`set.name`), Trainer/Pokemon (supertype), Card Number, Rarity, the Normal, Reverse Holofoil and Holofoil market prices, Unique Identifier (`id`) and TCGPlayer URL (`tcgplayer.url`), `''` when missing |
| `FetchCardDetails.ResultRows` | fetch_card_details.py:98-112 | one results row per card |
| `FetchCardDetails.ResultRowsInOrder` | fetch_card_details.py:98-112 | results row k is card k's row, so the rows keep the order of the cards |
| `FetchCardDetails.CellUpdates` | fetch_card_details.py:115-127 | 4 updates when the Shiny cell names a finish and 3 otherwise, all on the record's row, in columns 9, 4, 5, 10, no column twice |
| `FetchCardDetails.CellUpdatesOfLastCard` | fetch_card_details.py:115-127 | the updates read off the last card: Status "Fetched", Unique Identifier = its id, Type = its supertype, Price = its market price for the finish |
| `FetchCardDetails.HasCards` | fetch_card_details.py:147 | `if cards:` holds only for a present list with at least one card, and never for None |
| `FetchCardDetails.LookupHasCards` | fetch_card_details.py:146-147 | as fetch_card_details never returns an empty list, `if cards:` on a lookup is the same as a list having come back |
| `FetchCardDetails.RowEffect` | fetch_card_details.py:133-153 | a record causes one lookup exactly when it is planned for a query, with its row and query; results rows and updates are produced exactly when that lookup has cards, and then they are one results row per card and the cell updates of the last card, all on its row |
| `FetchCardDetails.ScanEffect` | fetch_card_details.py:132-153 | at most one lookup per record and at most four updates per lookup |
| `FetchCardDetails.ScanLookupsSound` | fetch_card_details.py:132-146 | every lookup is for a record planned for a query, at row index + 2, with that record's query |
| `FetchCardDetails.ScanLookupsComplete` | fetch_card_details.py:132-146 | every record planned for a query gets a lookup at row index + 2 |
| `FetchCardDetails.ScanLookupsOrdered` | fetch_card_details.py:132 | lookups are in strictly increasing row order |
| `FetchCardDetails.ScanUpdatesFromSelectedRows` | fetch_card_details.py:132-153 | every queued update is on the row (index + 2) of a record planned for a query, and only in columns 9, 4, 5, 10 |
| `FetchCardDetails.ScanUpdatesFromMatchedRows` | fetch_card_details.py:146-149 | every queued update is on a row whose lookup has cards |
| `FetchCardDetails.ScanMatchedRowComplete` | fetch_card_details.py:146-149 | a record planned for a query whose lookup has cards gets its results rows appended to Search Results and its cell updates queued, each as a contiguous block |
| `FetchCardDetails.ScanUpdatesOrdered` | fetch_card_details.py:132-149 | queued updates follow row order |
| `FetchCardDetails.SearchJob.constructor` | fetch_card_details.py:93 | the update queue, results and lookups start empty |
| `FetchCardDetails.SearchJob.ProcessSearchResults` | fetch_card_details.py:96-129 | appends one results row per card in order, and returns the updates derived from the last row |
| `FetchCardDetails.SearchJob.SearchRow` | fetch_card_details.py:145-151 | a queried record gets its lookup, run by the retry loop; the queue, results and lookups grow by exactly `RowEffect` of that lookup |
| `FetchCardDetails.SearchJob.ScanRow` | fetch_card_details.py:133-153 | one loop iteration: the queue, results and lookups grow by exactly `RowEffect` of the record's plan and its lookup |
| `FetchCardDetails.SearchJob.ScanRows` | fetch_card_details.py:132-153 | the scan extends queue, results and lookups by exactly `ScanEffect` of the records' plans, each lookup ending as the retry loop does |
| `FetchCardDetails.SearchJob.Batch` | fetch_card_details.py:156-158 | one batch entry per queued update: entry k is the A1 range of update k's row and column with `[[value]]` |
| `UpdateCardPrices.CardUrl` | update_card_prices.py:33 | the URL is the cards endpoint followed by the identifier's f-string text, and nothing else |
| `UpdateCardPrices.CardUrlInjective` | update_card_prices.py:33 | different string identifiers are requested at different URLs |
| `UpdateCardPrices.Raises` | update_card_prices.py:37-39 | fetch_card_price can raise only when the request fails or on a 200 reply (where `response.json()` runs); a reply with any other status never raises |
| `UpdateCardPrices.ReplyCard` | update_card_prices.py:38-40 | a card is read exactly from a 200 reply that decodes and whose `data` is present and not `{}`, and it is that `data` |
| `UpdateCardPrices.PriceUpdate` | update_card_prices.py:38-47 | at most one update, present exactly with a card and a recognised finish, in column 10 of the row with that finish's market price; nothing when the call raises |
| `UpdateCardPrices.Returned` | update_card_prices.py:38-47 | the call raises exactly on a failed request or an undecodable 200 reply, and returns the 1-tuple exactly for a card with finish Normal or Reverse Holofoil |
| `UpdateCardPrices.ReportFor` | update_card_prices.py:66-75 | the log line is for the row; "Added price" exactly when the call returned the tuple, an error exactly when it raised |
| `UpdateCardPrices.PriceCallOutcomes` | update_card_prices.py:38-47 | the 1-tuple is returned exactly for a queued Normal or Reverse Holofoil price; a price is queued without the tuple exactly for a Holofoil card; a call that queues nothing and does not raise returns None |
| `UpdateCardPrices.RowRefresh` | update_card_prices.py:62-76 | a record is fetched (one request, one log line, one pause) exactly when its Unique Identifier is truthy, and queues at most one price |
| `UpdateCardPrices.RefreshEffect` | update_card_prices.py:56-76 | requests, log lines and pauses are equally many, at most one per record, and there are no more queued prices than log lines |
| `UpdateCardPrices.RefreshUpdatesSound` | update_card_prices.py:42-46 | every queued update is in column 10, on the row (index + 2) of a record with a truthy identifier, a recognised finish and a reply with a card, and holds that card's market price for the finish |
| `UpdateCardPrices.RefreshUpdatesComplete` | update_card_prices.py:56-65 | every record with a truthy identifier, a recognised finish and a reply with a card gets a queued price |
| `UpdateCardPrices.RefreshPauses` | update_card_prices.py:76 | every pause lasts 5 seconds |
| `UpdateCardPrices.RefreshReportsSound` | update_card_prices.py:33-75 | each log line is for a record with a truthy identifier, and says how its call ended; the matching request is for that record's card URL |
| `UpdateCardPrices.RefreshReportsComplete` | update_card_prices.py:56-62 | every record with a truthy identifier is fetched and logged |
| `UpdateCardPrices.RefreshInRowOrder` | update_card_prices.py:56 | log lines and queued prices follow strictly increasing row order, at most one of each per row |
| `UpdateCardPrices.HolofoilPriceQueuedButNotReported` | update_card_prices.py:45-46 | over a whole run, a Holofoil record with a card gets its Holofoil market price queued, yet is logged only as "No price found" (update_card_prices.py:66-73) |
| `UpdateCardPrices.RefreshBatchWritesPrices` | update_card_prices.py:78-80 | batch entry k sets the A1 cell of queued row k in column 10 to the queued price |
| `UpdateCardPrices.PriceJob.constructor` | update_card_prices.py:30 | the update queue and the trace start empty |
| `UpdateCardPrices.PriceJob.FetchCardPrice` | update_card_prices.py:32-47 | requests the card URL, appends exactly `PriceUpdate` to the queue, and returns `Returned` |
| `UpdateCardPrices.PriceJob.RefreshRow` | update_card_prices.py:56-76 | one loop iteration of main extends queue and trace by exactly `RowRefresh` |
| `UpdateCardPrices.PriceJob.RefreshPrices` | update_card_prices.py:54-80 | main's loop extends queue and trace by exactly `RefreshEffect` of the records |

## Left out

- Google authentication, opening or creating worksheets, the Search Results header row
  and `batch_update` itself. The model stops at the batch payload.
- HTTP requests are replaced by the `respond` parameters.
  - In the search flow, a JSON decode error counts as a failed request, since it is a
    `RequestException`.
  - Logging is kept only as the refresh flow's log trace (`Report`).
  - Sleeping is kept as a trace of pause lengths.
- The API key, headers and environment variables.
- Responses are keyed by sheet row rather than by URL. The model therefore also
  covers servers that answer the same query differently over time.
- `.lower()` is modelled on ASCII letters only. That is enough to decide whether a
  string equals "search", but it differs from Python on other cased letters.
- Floats are carried as their `str()` text. No price arithmetic happens anywhere.
- A JSON `null` or non-object where the scripts chain `.get` on a nested object
  (`set`, `tcgplayer`, `prices`, a finish) is not modelled. In Python these raise
  `AttributeError`. In the search flow the row's handler catches it; in the refresh
  flow the row is logged as an error.
- The `card_name` parameter of `process_search_results` is only printed, so
  `ProcessSearchResults` drops it.
- An exception raised part-way through `process_search_results` (from the nested
  `.get` calls above) is not modelled. In the source it would end the row after some
  results rows had already been appended. The only exception the model has in the
  search flow is a non-string Status, whose `.lower()` fails before anything happens.
- In the search flow, the per-card `append_row` calls are modelled as appends to a
  sequence of rows.
