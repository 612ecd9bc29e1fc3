# Grow-a-Garden data API: the route handlers' logic in Dafny

This project models the logic inside four SvelteKit `GET` route handlers that
gather game data from upstream sites and answer with JSON:

- **get-weather**: downloads a server-rendered page. It cuts the object stored
  under `weatherDataSSR` out of the page text by counting braces
  (`extractJSONFromText`), then decodes it. Every failure becomes a 500 that
  carries the failure's message.
- **item-info**: keeps a single-slot, five-minute cache of the item catalog in
  two module-level variables, `cachedData` and `lastFetch`. On refresh it strips
  `pagination` from the response and `id`/`trend` from every item, in place.
  Each request is answered with the items that match `filter`/`category`,
  `rarity` and `name`, all compared ignoring case.
- **stock/get-stock**: turns inventory lines such as `Apple **x3**` into
  `{name, stock}` records (`extractCounts`). It assembles five category lists
  from two upstream documents and adds a timestamp.
- **calculate-price**: validates the `Name` and `Weight` parameters, builds the
  `tool` record (`Variant` defaults to `Normal`; `Mutation` is split on commas
  and each piece trimmed) and hands it to the valuation function.

Layout:

- `wrappers.dfy`: `Option` and `Result`.
- `json.dfy`: parsed JSON values, with JavaScript truthiness and property lookup.
- `text.dfy`: the string builtins the handlers use (`indexOf`, `includes`,
  `trim`, `toLowerCase`, `split`), over `seq<char>`.
- `http.dfy`: query parameters, the outcome of an upstream fetch, and a
  handler's answer (a body, or a status with a reason).
- One module per route: `weather.dfy`, `item_info.dfy`, `stock.dfy`,
  `calculate_price.dfy`.

The form of each module follows the source:

- `extractJSONFromText` is a method with a loop. It is proved equal to the
  recursive specification `Weather.Extract`.
- The item-info state is a class, `ItemInfoCache`, whose methods reassign
  `cachedData` and `lastFetch`. The in-place clean-up is a loop over the item
  list, proved equal to `ItemInfo.Normalize`.
- The stock parser, the price request builder and `filterItems` are pure
  functions.

Where the design notes of the system and its code disagree, the model follows
the code:

- A failed refresh of the item cache does not serve the stale copy. The
  request fails with 500 and the cache keeps its old contents.
- The stock marker `**x<digits>**` that gives the count is found anywhere in a
  line (the leftmost one). Only the removal from the name requires it to end
  the line.
- A weight that does not parse is answered with 500, not 400. See Findings.

## Model

| member | source | states |
|---|---|---|
| Text.IndexOf | src/routes/api/get-weather/+server.ts:5-12 | `indexOf`: the result is -1 exactly when the pattern occurs nowhere at or after `from`; otherwise it is an occurrence and no earlier occurrence exists |
| Text.ContainsIff | src/routes/api/item-info/+server.ts:59 | `includes` holds exactly when the pattern occurs at some index |
| Text.Lower | src/routes/api/item-info/+server.ts:57-59 | `toLowerCase` keeps the length and lower-cases each ASCII letter in place |
| Text.LowerIdempotent | src/routes/api/item-info/+server.ts:57-59 | lower-casing twice is lower-casing once |
| Text.Trim | src/routes/api/stock/get-stock/+server.ts:44 | `trim` returns a contiguous piece of the input with only whitespace around it and no whitespace at either edge |
| Text.TrimOfUnique | src/routes/api/stock/get-stock/+server.ts:44 | only one string has that property, so the contract of `Trim` determines its result |
| Text.TrimOfItself | src/routes/api/calculate-price/+server.ts:25 | a string with no whitespace at its edges trims to itself |
| Text.TrimSpaceSuffix | src/routes/api/stock/get-stock/+server.ts:44 | trailing whitespace does not change the trim |
| Text.Split | src/routes/api/calculate-price/+server.ts:25 | `split` on one character gives one more piece than there are separators, and no piece contains the separator |
| Text.JoinSplit | src/routes/api/calculate-price/+server.ts:25 | joining the pieces of a split with the separator gives back the string |
| Text.SplitJoin | src/routes/api/calculate-price/+server.ts:25 | splitting a join of separator-free pieces gives back the pieces, empty ones included |
| Json.FalsyValues | src/routes/api/item-info/+server.ts:67 | `Truthy`: the falsy JSON values are exactly `null`, `false`, `0` and the empty string |
| Json.Prop | src/routes/api/item-info/+server.ts:71 | a property read finds a value exactly when the value is an object that has that key, and returns that key's value |
| Http.Param | src/routes/api/calculate-price/+server.ts:6-9 | `searchParams.get` is null exactly when no pair has the name; otherwise it is the value of the first pair with that name |
| Http.ParamOrEmpty | src/routes/api/item-info/+server.ts:76-78 | a parameter read with `\|\|` is empty exactly when the parameter is missing or empty; otherwise it is the parameter's value |
| Http.FetchFailure | src/routes/api/get-weather/+server.ts:51-53 | a non-ok status becomes the message `HTTP error! status: <status>`; a rejected fetch keeps its error's message |
| Weather.DepthCountsBraces | src/routes/api/get-weather/+server.ts:17-20 | the brace depth after a text is its number of `{` minus its number of `}` |
| Weather.ObjectStart | src/routes/api/get-weather/+server.ts:5-12 | the object's start is -1 or the index of a `{` in the text |
| Weather.CloseFrom | src/routes/api/get-weather/+server.ts:17-25 | finds the first index at or after `i` where the depth counted from the start returns to zero; None exactly when there is none |
| Weather.ExtractJSONFromText | src/routes/api/get-weather/+server.ts:4-30 | the brace-counting loop returns exactly the specification `Extract`: the slice from the `{` to the first return to depth zero, or null |
| Weather.ExtractNullWhenNotLocated | src/routes/api/get-weather/+server.ts:5-12 | the result is null when the quoted key is missing, when no `:` follows the first key, or when no `{` follows that colon |
| Weather.ExtractIsSlice | src/routes/api/get-weather/+server.ts:11-29 | a non-null result is the slice of the text that starts at the object's `{`; it starts with `{`, ends with `}` and has at least two characters |
| Weather.ExtractBalanced | src/routes/api/get-weather/+server.ts:17-24 | a non-null result has as many `{` as `}`, and every nonempty proper prefix has strictly more `{`, so it is the shortest balanced prefix |
| Weather.ExtractNullIffUnbalanced | src/routes/api/get-weather/+server.ts:27 | once the `{` is found, the result is null exactly when the depth never returns to zero before the end of the text |
| Weather.ExtractEmbedded | src/routes/api/get-weather/+server.ts:4-30 | when the first quoted key is followed by `:` and a balanced object, the extraction returns exactly that object, whatever follows it |
| Weather.BraceInStringClosesEarly | src/routes/api/get-weather/+server.ts:18-19 | braces inside quoted strings are counted: for any key and brace-free property name, in `"key":{"name":"}"...` the `}` of the string value closes the object, whatever follows |
| Weather.GetWeather | src/routes/api/get-weather/+server.ts:51-77 | a failed fetch is a 500 with the fetch's message; a null extraction is a 500 `weatherDataSSR not found`; a decode error is a 500 `Failed to parse extracted JSON: ` plus the error's message; otherwise the answer is the decoded value |
| ItemInfo.NormalizeResponse | src/routes/api/item-info/+server.ts:36-46 | the in-place deletes (`pagination`, then `id` and `trend` on each item in a loop) compute exactly `Normalize`, including the null cases where `delete` throws |
| ItemInfo.NormalizeFailsIff | src/routes/api/item-info/+server.ts:39-45 | the clean-up throws exactly when the response is null or one of its listed items is null |
| ItemInfo.NormalizeObject | src/routes/api/item-info/+server.ts:39-46 | on an object, the top-level keys lose only `pagination`; other values are kept; a list under `items` keeps its length and order, and each object in it loses exactly `id` and `trend` |
| ItemInfo.NormalizeNonObject | src/routes/api/item-info/+server.ts:39-46 | non-object values other than null pass through unchanged |
| ItemInfo.NormalizeIdempotent | src/routes/api/item-info/+server.ts:39-46 | the cleaned response has no `pagination` and no `id` or `trend` on any item, and cleaning it again changes nothing |
| ItemInfo.NormalizeCarrot | src/routes/api/item-info/+server.ts:39-46 | a one-item catalog with pagination cleans to the item's name, category and rarity |
| ItemInfo.FilterItems | src/routes/api/item-info/+server.ts:55-62 | `filterItems` throws exactly when an active criterion meets a field that is not a string; otherwise it returns a subsequence of the input, in order, that holds every item matching all three criteria (category and rarity equal ignoring case, name contained ignoring case), as many times as the input does, and no other item |
| ItemInfo.KeepMatches | src/routes/api/item-info/+server.ts:56-61 | the per-item test throws exactly when an active criterion meets a non-string field, and keeps the item exactly when it matches all three criteria |
| ItemInfo.FilterNoCriteria | src/routes/api/item-info/+server.ts:56-61 | with no criteria the output is the input |
| ItemInfo.FilterAllMatching | src/routes/api/item-info/+server.ts:56-61 | a list whose items all match is returned whole |
| ItemInfo.FilterIdempotent | src/routes/api/item-info/+server.ts:56-61 | filtering twice with the same criteria is filtering once |
| ItemInfo.FilterIgnoresCase | src/routes/api/item-info/+server.ts:57-59 | criteria that differ only in letter case select the same items |
| ItemInfo.QueryFilters | src/routes/api/item-info/+server.ts:75-79 | the category comes from `filter`, falling back to `category`; rarity and name come from their own parameters; an empty value counts as absent |
| ItemInfo.UnusableCacheRefreshes | src/routes/api/item-info/+server.ts:67 | `NeedsRefresh`: nothing cached, or a falsy copy, is refetched whatever its age |
| ItemInfo.FreshUpToTtl | src/routes/api/item-info/+server.ts:67 | a usable cached copy is refetched exactly when it is older than 300000 ms; an age of exactly 300000 ms is still fresh |
| ItemInfo.ServeFiltered | src/routes/api/item-info/+server.ts:71-82 | a successful answer from the cache is the list of cached items that match the query's criteria, in order and with their multiplicities |
| ItemInfo.ServeFails | src/routes/api/item-info/+server.ts:71-85 | `Serve` fails only with 500: with `Failed to fetch item data` exactly when nothing usable is cached or its `items` is missing or falsy, and with a TypeError exactly when `items` is not a list or a criterion meets a field that is not a string |
| ItemInfo.ItemInfoCache.constructor | src/routes/api/item-info/+server.ts:15-16 | the cache starts empty with `lastFetch` zero |
| ItemInfo.ItemInfoCache.FetchAndUpdateData | src/routes/api/item-info/+server.ts:19-53 | on success the cache holds the cleaned response and `lastFetch` is `now`; a bad status, a rejection or a throwing delete leaves both fields as they were and reports the error |
| ItemInfo.ItemInfoCache.Get | src/routes/api/item-info/+server.ts:64-87 | a fresh cache is served without change; a stale or empty one is refreshed first; a failed refresh answers 500 with the failure's reason and leaves the cache unchanged; no stale copy is served |
| ItemInfo.SecondRequestWithinTtl | src/routes/api/item-info/+server.ts:67-69 | within five minutes of a successful refresh, a second request gets the same answer even though a fetch made then would fail |
| ItemInfo.ExpiredRefreshFails | src/routes/api/item-info/+server.ts:67-85 | after five minutes a failed refresh answers 500 with the upstream status instead of the stale copy |
| Stock.DigitRun | src/routes/api/stock/get-stock/+server.ts:42 | measures the maximal run of ASCII digits at an index (greedy `\d+`) |
| Stock.SpaceRun | src/routes/api/stock/get-stock/+server.ts:44 | measures the maximal run of whitespace at an index (greedy `\s*`) |
| Stock.FindMarker | src/routes/api/stock/get-stock/+server.ts:42 | the regex match is the leftmost `**x<digits>**` at or after `from`, or none when there is no marker |
| Stock.FindTrail | src/routes/api/stock/get-stock/+server.ts:44 | the replace cuts at the leftmost position where whitespace and then a marker run to the end of the line, or nowhere |
| Stock.ParseLine | src/routes/api/stock/get-stock/+server.ts:41-46 | every line's record has a nonempty all-digit `stock` and a `name` without whitespace at its edges |
| Stock.ExtractCounts | src/routes/api/stock/get-stock/+server.ts:40-47 | `extractCounts` keeps the length and order, and record `i` is parsed from line `i` alone |
| Stock.StockIsDigits | src/routes/api/stock/get-stock/+server.ts:42-43 | the stock is always a nonempty string of ASCII digits |
| Stock.StockIsLeftmostMarker | src/routes/api/stock/get-stock/+server.ts:42-43 | `StockOf`: when the leftmost marker anywhere in the line starts at `p`, the stock is that marker's digit run |
| Stock.StockWithoutMarker | src/routes/api/stock/get-stock/+server.ts:42-43 | `StockOf`: a line with no marker has stock `"0"` |
| Stock.NoMarkerWithoutX | src/routes/api/stock/get-stock/+server.ts:42 | a line without an `x` holds no marker |
| Stock.NameIsTrimmed | src/routes/api/stock/get-stock/+server.ts:44 | the name never starts or ends with whitespace |
| Stock.EndMarkerUnique | src/routes/api/stock/get-stock/+server.ts:44 | at most one marker ends a line |
| Stock.NameBeforeEndMarker | src/routes/api/stock/get-stock/+server.ts:44 | `NameOf`: a line ending with a marker is named by what precedes the marker, trimmed |
| Stock.NameOfMarkedLine | src/routes/api/stock/get-stock/+server.ts:44 | a line of the form text, whitespace, `**x<digits>**` is named by the text, trimmed |
| Stock.NameWithoutEndMarker | src/routes/api/stock/get-stock/+server.ts:44 | `NameOf`: a line that does not end with a marker is named by the whole line, trimmed |
| Stock.NameWithoutTrailingMarker | src/routes/api/stock/get-stock/+server.ts:44 | in particular, a line whose last character is not `*` is named by the whole line, trimmed |
| Stock.ParseMarkedExample | src/routes/api/stock/get-stock/+server.ts:41-46 | `Apple **x3**` parses to name `Apple`, stock `3` |
| Stock.ParseUnmarkedExample | src/routes/api/stock/get-stock/+server.ts:41-46 | `Banana` parses to name `Banana`, stock `0` |
| Stock.ParseSpaceAfterMarkerExample | src/routes/api/stock/get-stock/+server.ts:42-44 | in `Apple **x3** `, the marker followed by a space still gives stock `3` but stays in the name `Apple **x3**` |
| Stock.ExtractCountsExample | src/routes/api/stock/get-stock/+server.ts:40-47 | the two example lines parse, in order, to their two records |
| Stock.Lines | src/routes/api/stock/get-stock/+server.ts:41-42 | `item.match` succeeds on every element exactly when all elements are strings, and then sees those strings, in order |
| Stock.CountsOrEmpty | src/routes/api/stock/get-stock/+server.ts:59-63 | `extractCounts(list \|\| [])` throws exactly when the category is truthy but not a list of strings; a missing or falsy category gives no records; a list gives one parsed record per line, in order |
| Stock.Format | src/routes/api/stock/get-stock/+server.ts:56-65 | the `{ Data: ... }` assembly throws exactly when a document is null or one of the five categories throws; otherwise `updatedAt` is the upstream value when truthy, whatever its type, and `now` otherwise, and each list is parsed from its own category |
| Stock.GetStock | src/routes/api/stock/get-stock/+server.ts:49-72 | the answer succeeds exactly when both documents arrive and format without a TypeError, and is then `{ Data: ... }`; a failed fetch is a 500 with its message, the main document's first; a TypeError is a 500 with the engine's message |
| CalculatePrice.VariantOf | src/routes/api/calculate-price/+server.ts:24 | the variant is never empty: it is the parameter when present and nonempty, `Normal` otherwise |
| CalculatePrice.TrimAll | src/routes/api/calculate-price/+server.ts:25 | each piece is replaced by its trim, keeping count and order |
| CalculatePrice.Attributes | src/routes/api/calculate-price/+server.ts:25 | no attributes for a missing or empty `Mutation`; otherwise one more attribute than there are commas, each the trim of its comma-separated piece and free of commas |
| CalculatePrice.AttributesOfJoin | src/routes/api/calculate-price/+server.ts:25 | comma-free pieces without edge whitespace come back unchanged from joining with commas and then splitting and trimming, empty ones and their order included |
| CalculatePrice.AttributesIgnoreSpaceAroundCommas | src/routes/api/calculate-price/+server.ts:25 | two mutation strings whose pieces trim alike give the same attributes |
| CalculatePrice.BuildTool | src/routes/api/calculate-price/+server.ts:21-26 | the tool carries the name and weight unchanged, the defaulted variant and the split-and-trimmed attributes |
| CalculatePrice.ToolOf | src/routes/api/calculate-price/+server.ts:21-26 | an accepted request's tool has the first `Name` value (nonempty), the parsed weight, and the variant and attributes of the query |
| CalculatePrice.CalculatePrice | src/routes/api/calculate-price/+server.ts:5-34 | a missing or empty `Name` or `Weight` is a 400 before anything else; the answer is `{ value }` exactly when the weight parses and the valuation succeeds; with both parameters present, every other outcome is a 500 `Internal server error` |
| CalculatePrice.Attempt | src/routes/api/calculate-price/+server.ts:15-29 | inside the `try`, an unparseable weight throws the 400 `Weight must be a valid number`; otherwise the outcome is the valuation of the request's tool |
| CalculatePrice.UnparseableWeightIs500 | src/routes/api/calculate-price/+server.ts:16-19 | a request with an unparseable weight is answered with 500 `Internal server error`, never with the 400 |
| CalculatePrice.CalculatePriceIntended | src/routes/api/calculate-price/+server.ts:15-33 | corrected handler: the answer is a 400 exactly when the request is not accepted (missing parameter or unparseable weight), and a 500 only when the valuation fails |
| CalculatePrice.IntendedAgreesElsewhere | src/routes/api/calculate-price/+server.ts:15-33 | the corrected handler differs from the original only on requests whose weight does not parse |
| CalculatePrice.AppleTool | src/routes/api/calculate-price/+server.ts:21-28 | `Name=Apple&Weight=2.5&Variant=Golden&Mutation=Frozen,Wet` reaches the valuation function with `Apple`, 2.5, `Golden`, `[Frozen, Wet]` |
| CalculatePrice.AppleWithoutWeight | src/routes/api/calculate-price/+server.ts:11-13 | the same request without `Weight` is a 400 `Missing required parameters: Name, Weight` |

## Left out

- Network I/O: the `fetch` calls, their URLs and headers. Each handler takes the outcome of its fetch as an input: a decoded body, a non-ok status, or a rejection with a message.
- Decoding: `response.json()` and `JSON.parse`. The item-info body and both stock documents arrive as parsed `Json.Value`s, so a null document or an ill-typed field is expressible; the weather page arrives as text. The weather handler takes `JSON.parse` as a parameter that returns a value or an error message.
- `Date.now()` becomes a `now` parameter. In item-info, one value stands for both readings, at `+server.ts:49` and at `+server.ts:67`.
- `console.log` and `console.error`: logging only.
- SvelteKit's `json` and `error` become the `Http.Response` datatype. The object `{ message }` that `error` receives is modelled by its message alone.
- `Stock.GetStock`: runs the two fetches of `Promise.all` as two independent inputs. When both fail, the main document's error is reported; at runtime the one that rejects first wins.
- `parseFloat` and floating-point weights: the parser is a parameter that returns a real, or nothing for NaN. `calculateFruit` is also a parameter, which returns a real or nothing when it throws; its code is not part of this model.
- `Text.Lower`, `Text.Trim`, `Stock.SpaceRun`: letter case and whitespace are ASCII only. Unicode case mapping and Unicode whitespace are not modelled.
- `Weather.GetWeather`: treats an empty extraction as impossible rather than testing it as a falsy string. `Weather.ExtractIsSlice` proves that a non-null result has at least two characters.
- `ItemInfo.ItemInfoCache.Get`: concurrent requests and a refresh that overlaps another request are not modelled. Each call runs to completion.
- `Text.IndexOf`: for an empty pattern searched from beyond the end, JavaScript clamps the start and answers the length, where the model answers -1. No handler searches for an empty pattern.
- Items are JSON values. A field that is not a string makes `toLowerCase` throw, and that is modelled as an engine error.

## Findings

| source | as written | input that shows it | evidently intended | confidence | as-written member | corrected member |
|---|---|---|---|---|---|---|
| src/routes/api/calculate-price/+server.ts:16-19 | the 400 `Weight must be a valid number` is thrown inside the `try`, and the `catch` replaces it with a 500 `Internal server error` | `Name=Apple&Weight=abc`, where `parseFloat("abc")` is NaN | an unparseable weight is a client error answered with 400 `Weight must be a valid number` | high; not executed | CalculatePrice.UnparseableWeightIs500 | CalculatePrice.CalculatePriceIntended |
